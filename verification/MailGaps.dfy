/**
 The coverage gaps of an Outlook round say exactly what it could not cover.
 */
module MailGaps {
  import opened Basics
  import opened MailDelta
  import opened MailRounds
  import opened MailLinks

  function One(gaps: seq<Gap>, g: Gap): nat {
    if g in gaps then 1 else 0
  }

  /** No gap is listed twice. */
  predicate Once(gaps: seq<Gap>) {
    |gaps| == One(gaps, FolderRemoved) + One(gaps, FolderLimit) + One(gaps, CandidateLimit)
  }

  /** The limits that were reached are listed, and no others. */
  predicate Tells(s: State) {
    && Once(s.gaps)
    && (FolderLimit in s.gaps <==> s.folderOverflow)
    && (CandidateLimit in s.gaps <==> s.removalOverflow)
  }

  lemma AddGapLists(s: State, g: Gap)
    requires Once(s.gaps)
    ensures
      var t := s.AddGap(g);
      Once(t.gaps) && g in t.gaps && forall h | h != g :: h in t.gaps <==> h in s.gaps
  {
  }

  lemma TrackOneTells(s: State, item: Entry)
    requires Tells(s)
    ensures
      var t := TrackOne(s, item);
      && Tells(t)
      && (FolderRemoved in t.gaps <==>
            FolderRemoved in s.gaps || (item.removed && item.id.Some? && item.id.value in s.folders))
  {
    if item.id.Some? {
      AddGapLists(s.(folders := s.folders - {item.id.value}), FolderRemoved);
      AddGapLists(s.(folderOverflow := true), FolderLimit);
    }
  }

  /** Some entry removes a folder that is tracked by then. */
  predicate Removes(s: State, items: seq<Entry>) {
    items != [] &&
    var init, last := items[..|items| - 1], items[|items| - 1];
    Removes(s, init) || (last.removed && last.id.Some? && last.id.value in Track(s, init).folders)
  }

  /** A removed folder is listed as a gap exactly when one was tracked. */
  lemma {:induction false} TrackTells(s: State, items: seq<Entry>)
    requires Tells(s)
    ensures
      var t := Track(s, items);
      Tells(t) && (FolderRemoved in t.gaps <==> FolderRemoved in s.gaps || Removes(s, items))
  {
    if items == [] {
    } else {
      TrackTells(s, items[..|items| - 1]);
      TrackOneTells(Track(s, items[..|items| - 1]), items[|items| - 1]);
    }
  }

  lemma GatherOneTells(s: State, folder: Id, item: Entry)
    requires Tells(s)
    ensures Tells(GatherOne(s, folder, item))
  {
    AddGapLists(s.(removalOverflow := true), CandidateLimit);
  }

  lemma {:induction false} GatherTells(s: State, folder: Id, items: seq<Entry>)
    requires Tells(s)
    ensures Tells(Gather(s, folder, items))
  {
    if items == [] {
    } else {
      GatherTells(s, folder, items[..|items| - 1]);
      GatherOneTells(Gather(s, folder, items[..|items| - 1]), folder, items[|items| - 1]);
    }
  }

  lemma {:induction false} StepTells(reader: Reader, s: State)
    requires s.WellFormed() && !s.phase.Complete? && Tells(s) && Step(reader, Some(s)).Ok?
    ensures Tells(Step(reader, Some(s)).checkpoint)
  {
    if s.phase.Folders? {
      TrackTells(s, reader(QueryOf(s)).value.items);
    } else if s.index < |s.order| {
      GatherTells(s, s.order[s.index], reader(QueryOf(s)).value.items);
    }
  }

  /** At the end of a round the gaps list the folder limit exactly if it was reached, and the
      limit of removal candidates exactly if it was. */
  lemma {:induction false} RoundTells(reader: Reader, feed: Feed, s: State)
    requires Finite(reader, feed) && Sound(s) && !s.phase.Complete? && Tells(s)
    ensures Tells(EndOf(reader, feed, s))
    decreases PhaseRank(s), FoldersLeft(s), PagesLeft(feed, s)
  {
    EndOfNext(reader, feed, s);
    StepTells(reader, s);
    var r := Step(reader, Some(s));
    if !r.complete {
      RoundTells(reader, feed, r.checkpoint);
    }
  }

  /** Every round begins without gaps. */
  lemma BeginsWithoutGaps(checkpoint: Option<State>)
    requires checkpoint.Some? ==> checkpoint.value.phase.Complete?
    ensures Working(checkpoint).gaps == [] && Tells(Working(checkpoint))
  {
  }
}
