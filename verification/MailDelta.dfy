/**
 Bounded, resumable Outlook mail synchronisation: one Graph page per call, first the
 folder delta, then the message delta of each tracked folder in sorted order.

 Identifiers and links are numbers: only their equality and order matter.  A checkpoint
 is the record it encodes, and decoding is its well-formedness test.
 */
module MailDelta {
  import opened Basics

  type Id = nat
  type Link = nat
  type Token = nat

  const MAX_FOLDERS := 128
  const MAX_REMOVAL_CANDIDATES := 1024
  const MAX_GAPS := 8

  datatype Gap = FolderRemoved | FolderLimit | CandidateLimit

  datatype Phase = Folders | Messages | Complete

  datatype Folder = Folder(link: Option<Link>, continuation: Option<Token>)

  datatype Candidate = Candidate(folder: Id, revision: nat)

  datatype State = State(
    phase: Phase,
    folders: map<Id, Folder>,
    folderLink: Option<Link>,
    folderContinuation: Option<Token>,
    order: seq<Id>,
    index: nat,
    candidates: map<Id, Candidate>,
    removalOverflow: bool,
    folderOverflow: bool,
    gaps: seq<Gap>)
  {
    /** Every folder to be read is tracked. */
    predicate Closed() {
      forall f <- order :: f in folders
    }

    /** What decoding accepts. */
    predicate WellFormed() {
      && |folders| <= MAX_FOLDERS
      && |order| <= MAX_FOLDERS
      && Closed()
      && Distinct(order)
      && |candidates| <= MAX_REMOVAL_CANDIDATES
    }

    function AddGap(gap: Gap): State {
      if gap !in gaps && |gaps| < MAX_GAPS then this.(gaps := gaps + [gap]) else this
    }
  }

  predicate Distinct(s: seq<Id>) {
    forall i, j | 0 <= i < j < |s| :: s[i] != s[j]
  }

  /** One listed object; one without an identifier makes the page unusable. */
  datatype Entry = Entry(id: Option<Id>, removed: bool, revision: nat)

  datatype Page = Page(items: seq<Entry>, continuation: Option<Token>, link: Option<Link>)

  datatype Query =
    | FolderQuery(link: Option<Link>, continuation: Option<Token>)
    | MessageQuery(folder: Id, link: Option<Link>, continuation: Option<Token>)

  /** The connector: it answers every query, or fails. */
  type Reader = Query -> Option<Page>

  datatype Change = Change(folder: Id, item: Entry)

  datatype Removal = Removal(folder: Id, message: Id, revision: nat)

  datatype Result =
    | Invalid
    | Ok(changes: seq<Change>, checkpoint: State, complete: bool, removals: seq<Removal>, scanned: nat)

  const INITIAL := State(Folders, map[], None, None, [], 0, map[], false, false, [])

  function NextRound(prior: State): (s: State)
    ensures |s.folders| == |prior.folders|
  {
    var folders := map f <- prior.folders :: Folder(prior.folders[f].link, None);
    assert folders.Keys == prior.folders.Keys;
    INITIAL.(folderLink := prior.folderLink, folders := folders)
  }

  // ----------------------------------------------------------------------
  // Sorting
  // ----------------------------------------------------------------------

  predicate Increasing(s: seq<Id>) {
    forall i, j | 0 <= i < j < |s| :: s[i] < s[j]
  }

  function Sorted(ids: set<Id>): (s: seq<Id>)
    ensures |s| == |ids|
  {
    if ids == {} then [] else var least := Least(ids); [least] + Sorted(ids - {least})
  }

  lemma {:induction false} SortedHolds(ids: set<Id>, x: Id)
    ensures x in Sorted(ids) <==> x in ids
  {
    if ids != {} {
      var least := Least(ids);
      SortedHolds(ids - {least}, x);
      assert Sorted(ids) == [least] + Sorted(ids - {least});
    }
  }

  lemma {:induction false} SortedIncreases(ids: set<Id>)
    ensures Increasing(Sorted(ids))
  {
    if ids != {} {
      var least := Least(ids);
      var rest := Sorted(ids - {least});
      SortedIncreases(ids - {least});
      assert Sorted(ids) == [least] + rest;
      forall i | 0 <= i < |rest| ensures least < rest[i] {
        SortedHolds(ids - {least}, rest[i]);
        assert rest[i] in ids - {least};
      }
    }
  }

  lemma SortedIsSorted(ids: set<Id>)
    ensures Increasing(Sorted(ids)) && forall x :: x in Sorted(ids) <==> x in ids
  {
    SortedIncreases(ids);
    forall x ensures x in Sorted(ids) <==> x in ids { SortedHolds(ids, x); }
  }

  // ----------------------------------------------------------------------
  // What one page does
  // ----------------------------------------------------------------------

  /** The effect of one listed folder on the tracked folders. */
  function TrackOne(s: State, item: Entry): State {
    match item.id
    case None => s
    case Some(f) =>
      if item.removed then
        if f in s.folders then s.(folders := s.folders - {f}).AddGap(FolderRemoved) else s
      else if f in s.folders then s
      else if |s.folders| >= MAX_FOLDERS then s.(folderOverflow := true).AddGap(FolderLimit)
      else s.(folders := s.folders[f := Folder(None, None)])
  }

  function Track(s: State, items: seq<Entry>): State {
    if items == [] then s else TrackOne(Track(s, items[..|items| - 1]), items[|items| - 1])
  }

  /** The effect of one listed message on the removal candidates. */
  function GatherOne(s: State, folder: Id, item: Entry): State {
    match item.id
    case None => s
    case Some(m) =>
      if !item.removed || m in s.candidates then s
      else if |s.candidates| >= MAX_REMOVAL_CANDIDATES then s.(removalOverflow := true).AddGap(CandidateLimit)
      else s.(candidates := s.candidates[m := Candidate(folder, item.revision)])
  }

  function Gather(s: State, folder: Id, items: seq<Entry>): State {
    if items == [] then s else GatherOne(Gather(s, folder, items[..|items| - 1]), folder, items[|items| - 1])
  }

  function Changes(folder: Id, items: seq<Entry>): seq<Change> {
    if items == [] then []
    else
      var last := items[|items| - 1];
      Changes(folder, items[..|items| - 1]) + if last.removed then [] else [Change(folder, last)]
  }

  predicate Identified(items: seq<Entry>) {
    forall e <- items :: e.id.Some?
  }

  function RemovalsOf(candidates: map<Id, Candidate>): seq<Removal> {
    SortedIsSorted(candidates.Keys);
    var ids := Sorted(candidates.Keys);
    assert forall i | 0 <= i < |ids| :: ids[i] in ids;
    seq(|ids|, i requires 0 <= i < |ids| => Removal(candidates[ids[i]].folder, ids[i], candidates[ids[i]].revision))
  }

  /** Packs a result; removals are reported only by a complete result, and not after the
      candidate limit was reached. */
  function Pack(s: State, changes: seq<Change>, scanned: nat, complete: bool): Result {
    Ok(changes, s, complete, if complete && !s.removalOverflow then RemovalsOf(s.candidates) else [], scanned)
  }

  function MessageQueryOf(s: State, folder: Id): Query
    requires folder in s.folders
  {
    MessageQuery(folder, s.folders[folder].link, s.folders[folder].continuation)
  }

  /** The whole folder step as a function of the page. */
  function FolderStep(s: State, page: Page): Result {
    if !Identified(page.items) then Invalid
    else
      var t := Track(s, page.items);
      if page.continuation.Some? then
        Pack(t.(folderContinuation := page.continuation), [], |page.items|, false)
      else if page.link.None? then Invalid
      else
        Pack(t.(folderContinuation := None, folderLink := page.link,
                order := Sorted(t.folders.Keys), index := 0, phase := Messages), [], |page.items|, false)
  }

  /** The whole message step for the current folder as a function of the page. */
  function MessageStep(s: State, page: Page): Result
    requires s.WellFormed() && s.index < |s.order|
  {
    var f := s.order[s.index];
    if !Identified(page.items) then Invalid
    else
      var t := Gather(s, f, page.items);
      var changes := Changes(f, page.items);
      if page.continuation.Some? then
        Pack(t.(folders := s.folders[f := s.folders[f].(continuation := page.continuation)]),
             changes, |page.items|, false)
      else if page.link.None? then Invalid
      else
        var u := t.(folders := s.folders[f := Folder(page.link, None)], index := s.index + 1);
        if s.index + 1 >= |s.order| then Pack(u.(phase := Complete), changes, |page.items|, true)
        else Pack(u, changes, |page.items|, false)
  }

  /** The state a call works on: a completed one starts the next round. */
  function Working(checkpoint: Option<State>): State {
    match checkpoint
    case None => INITIAL
    case Some(s) => if s.phase.Complete? then NextRound(s) else s
  }

  function QueryOf(s: State): Query
    requires s.WellFormed() && (s.phase.Messages? ==> s.index < |s.order|)
  {
    if s.phase.Messages? then MessageQueryOf(s, s.order[s.index])
    else FolderQuery(s.folderLink, s.folderContinuation)
  }

  /** One call, as a function of the checkpoint and the connector. */
  function Step(reader: Reader, checkpoint: Option<State>): Result {
    if checkpoint.Some? && !checkpoint.value.WellFormed() then Invalid
    else
      var s := Working(checkpoint);
      if s.phase.Messages? && s.index >= |s.order| then Pack(s.(phase := Complete), [], 0, true)
      else
        match reader(QueryOf(s))
        case None => Invalid
        case Some(page) => if s.phase.Folders? then FolderStep(s, page) else MessageStep(s, page)
  }

  // ----------------------------------------------------------------------
  // The call itself
  // ----------------------------------------------------------------------

  /** One call: decodes the checkpoint, reads one page and works through it item by
      item, changing the state in place. */
  method Sync(reader: Reader, checkpoint: Option<State>) returns (r: Result)
    ensures r == Step(reader, checkpoint)
  {
    if checkpoint.Some? && !checkpoint.value.WellFormed() { return Invalid; }
    ghost var s0 := Working(checkpoint);
    var s := Working(checkpoint);
    if s.phase.Messages? && s.index >= |s.order| {
      return Pack(s.(phase := Complete), [], 0, true);
    }
    var answer := reader(QueryOf(s));
    if answer.None? { return Invalid; }
    var page := answer.value;
    if s.phase.Folders? {
      r := ListFolders(s, page);
    } else {
      r := ListMessages(s, page);
    }
  }

  lemma TrackNext(s: State, items: seq<Entry>, i: nat)
    requires i < |items|
    ensures Track(s, items[..i + 1]) == TrackOne(Track(s, items[..i]), items[i])
  {
    assert items[..i + 1][..i] == items[..i];
  }

  lemma GatherNext(s: State, folder: Id, items: seq<Entry>, i: nat)
    requires i < |items|
    ensures Gather(s, folder, items[..i + 1]) == GatherOne(Gather(s, folder, items[..i]), folder, items[i])
    ensures Changes(folder, items[..i + 1]) ==
      Changes(folder, items[..i]) + if items[i].removed then [] else [Change(folder, items[i])]
  {
    assert items[..i + 1][..i] == items[..i];
  }

  /** Works through the listed folders; one without an identifier stops everything. */
  method TrackFolders(s0: State, items: seq<Entry>) returns (tracked: Option<State>)
    ensures tracked == if Identified(items) then Some(Track(s0, items)) else None
  {
    var s := s0;
    for i := 0 to |items|
      invariant s == Track(s0, items[..i])
      invariant Identified(items[..i])
    {
      if items[i].id.None? {
        assert items[i] in items;
        return None;
      }
      TrackNext(s0, items, i);
      s := TrackFolder(s, items[i]);
    }
    assert items[..|items|] == items;
    return Some(s);
  }

  method TrackFolder(s0: State, item: Entry) returns (s: State)
    requires item.id.Some?
    ensures s == TrackOne(s0, item)
  {
    s := s0;
    var f := item.id.value;
    if item.removed {
      if f in s.folders {
        s := s.(folders := s.folders - {f}).AddGap(FolderRemoved);
      }
    } else if f !in s.folders && |s.folders| >= MAX_FOLDERS {
      s := s.(folderOverflow := true).AddGap(FolderLimit);
    } else if f !in s.folders {
      s := s.(folders := s.folders[f := Folder(None, None)]);
    }
  }

  method ListFolders(s0: State, page: Page) returns (r: Result)
    ensures r == FolderStep(s0, page)
  {
    var tracked := TrackFolders(s0, page.items);
    if tracked.None? { return Invalid; }
    var s := tracked.value;
    if page.continuation.Some? {
      s := s.(folderContinuation := page.continuation);
      return Pack(s, [], |page.items|, false);
    }
    if page.link.None? { return Invalid; }
    s := s.(folderContinuation := None, folderLink := page.link);
    s := s.(order := Sorted(s.folders.Keys), index := 0, phase := Messages);
    return Pack(s, [], |page.items|, false);
  }

  method ListMessages(s0: State, page: Page) returns (r: Result)
    requires s0.WellFormed() && s0.index < |s0.order|
    ensures r == MessageStep(s0, page)
  {
    var s := s0;
    var f := s.order[s.index];
    var changes: seq<Change> := [];
    for i := 0 to |page.items|
      invariant s == Gather(s0, f, page.items[..i])
      invariant changes == Changes(f, page.items[..i])
      invariant forall e <- page.items[..i] :: e.id.Some?
    {
      var item := page.items[i];
      GatherNext(s0, f, page.items, i);
      if item.id.None? {
        assert item in page.items;
        return Invalid;
      }
      var m := item.id.value;
      if !item.removed {
        changes := changes + [Change(f, item)];
      } else if m !in s.candidates {
        if |s.candidates| >= MAX_REMOVAL_CANDIDATES {
          s := s.(removalOverflow := true).AddGap(CandidateLimit);
        } else {
          s := s.(candidates := s.candidates[m := Candidate(f, item.revision)]);
        }
      }
    }
    assert page.items[..|page.items|] == page.items;
    GatherKeeps(s0, f, page.items);
    if page.continuation.Some? {
      s := s.(folders := s.folders[f := s.folders[f].(continuation := page.continuation)]);
      return Pack(s, changes, |page.items|, false);
    }
    if page.link.None? { return Invalid; }
    s := s.(folders := s.folders[f := Folder(page.link, None)], index := s.index + 1);
    if s.index >= |s.order| {
      s := s.(phase := Complete);
      return Pack(s, changes, |page.items|, true);
    }
    return Pack(s, changes, |page.items|, false);
  }

  lemma {:induction false} GatherKeeps(s: State, folder: Id, items: seq<Entry>)
    ensures
      var t := Gather(s, folder, items);
      t == s.(candidates := t.candidates, removalOverflow := t.removalOverflow, gaps := t.gaps)
    ensures |s.candidates| <= MAX_REMOVAL_CANDIDATES ==>
      |Gather(s, folder, items).candidates| <= MAX_REMOVAL_CANDIDATES
    ensures s.removalOverflow ==> Gather(s, folder, items).removalOverflow
  {
    if items == [] {
    } else {
      GatherKeeps(s, folder, items[..|items| - 1]);
    }
  }
}
