/**
 A Drive round over finite listings and change logs moves on page by page and ends.
 */
module DriveProgress {
  import opened Basics
  import opened DriveSync
  import DriveRuns

  // ----------------------------------------------------------------------
  // Finite feeds
  // ----------------------------------------------------------------------

  /** What a call asks for: a page of files, or of changes from a position. */
  datatype Query = Listing(continuation: Option<Token>) | ChangesFrom(position: Token)

  function Continued(q: Query, token: Token): Query {
    match q
    case Listing(_) => Listing(Some(token))
    case ChangesFrom(_) => ChangesFrom(token)
  }

  /** A provider with the anchor it gives and the pages still to come when it is asked. */
  datatype Provider = Provider(anchor: Token, reader: Query -> Page, feed: Query -> seq<Page>)

  /** Each query is answered by the first page of its feed, whose continuation asks for the
      others; usable changes end with a cursor. */
  predicate Served(p: Provider, q: Query) {
    var pages := p.feed(q);
    && |pages| > 0 && p.reader(q) == pages[0]
    && (match pages[0].continuation
        case Some(token) => p.feed(Continued(q, token)) == pages[1..] && |pages| > 1
        case None => |pages| == 1)
    && (q.ChangesFrom? ==> Consistent(pages[0].entries) && (pages[0].continuation.None? ==> pages[0].cursor.Some?))
  }

  ghost predicate Finite(p: Provider) {
    forall q :: Served(p, q)
  }

  // ----------------------------------------------------------------------
  // What is pending
  // ----------------------------------------------------------------------

  /** Every checkpoint a round leaves is of this kind, and so are those of the next one. */
  predicate Ready(d: Drive) {
    && !NeedsBootstrap(d)
    && (d.phase.Files? || d.phase.Changes? ==> d.captured && (d.anchor.Some? || d.done))
  }

  /** Where reading the changes goes on, or will begin. */
  function LogPosition(d: Drive, anchor: Token): Token {
    if d.changes.Some? then d.changes.value
    else if d.phase.Unset? then if d.cursor.Some? then d.cursor.value else anchor
    else if d.anchor.Some? then d.anchor.value
    else anchor
  }

  /** The pages a round still has to read: what is left of the listing, unless it is past it
      or needs none, and then of the changes. */
  function Pending(p: Provider, d: Drive): seq<Page> {
    var changes := p.feed(ChangesFrom(LogPosition(d, p.anchor)));
    if d.done then []
    else if d.phase.Changes? || (d.phase.Unset? && d.cursor.Some?) then changes
    else p.feed(Listing(d.continuation)) + changes
  }

  /** The question a call asks. */
  function QueryOf(p: Provider, d: Drive): Query {
    if d.phase.Changes? || (d.phase.Unset? && d.cursor.Some?) then ChangesFrom(LogPosition(d, p.anchor))
    else Listing(d.continuation)
  }

  /** How a call ends: with the page it asked for, without it, or with its continuation
      rejected. */
  datatype Call = Answered | Unanswered | Rejected

  function PageOf(p: Provider, d: Drive, call: Call): Fetched<Page> {
    match call
    case Answered => Got(p.reader(QueryOf(p, d)))
    case Unanswered => Lost(false)
    case Rejected => Lost(true)
  }

  function Called(p: Provider, d: Drive, call: Call): Turn {
    Round(d, Got(Some(p.anchor)), PageOf(p, DriveRuns.Working(d), call))
  }

  /** A checkpoint that needs it is first replaced by one that begins a listing. */
  lemma BootstrapLists(p: Provider, d: Drive, call: Call)
    requires NeedsBootstrap(d)
    ensures
      var w := DriveRuns.Working(d);
      && Ready(w) && !w.done && Called(p, d, call) == Called(p, w, call)
      && Pending(p, w) == p.feed(Listing(None)) + p.feed(ChangesFrom(p.anchor))
  {
  }

  /** The round after a done one reads the changes from the cursor that one ended at. */
  lemma NextRoundReadsOn(p: Provider, d: Drive)
    requires Ready(d) && d.done && d.cursor.Some?
    ensures Ready(Restored(d)) && Pending(p, Restored(d)) == p.feed(ChangesFrom(d.cursor.value))
  {
  }

  lemma CallKeepsReady(p: Provider, d: Drive, call: Call)
    requires Ready(d) && Finite(p)
    ensures Ready(Called(p, d, call).drive)
  {
    assert Served(p, QueryOf(p, d));
  }

  /** A call that is answered takes the first pending page off, delivers it, and ends the round
      with the last one; a call that is not leaves them pending. */
  lemma CallMovesOn(p: Provider, d: Drive, call: Call)
    requires Ready(d) && Finite(p) && !d.done && !call.Rejected?
    ensures Pending(p, d) != []
    ensures
      var turn, pages := Called(p, d, call), Pending(p, d);
      if call.Answered? then
        && !turn.failed && turn.deliveries == Deliveries(pages[0].entries)
        && Pending(p, turn.drive) == pages[1..]
        && (turn.drive.done <==> |pages| == 1)
        && (turn.drive.done ==> turn.drive.cursor == pages[0].cursor && turn.drive.cursor.Some?)
      else turn.failed && turn.deliveries == [] && Pending(p, turn.drive) == pages && !turn.drive.done
  {
    assert Served(p, QueryOf(p, d));
    assert Served(p, ChangesFrom(LogPosition(d, p.anchor)));
  }

  // ----------------------------------------------------------------------
  // A round
  // ----------------------------------------------------------------------

  datatype Outcome = Outcome(drive: Drive, deliveries: seq<Delivery>)

  function After(p: Provider, d: Drive, calls: seq<Call>): Outcome {
    if calls == [] then Outcome(d, [])
    else
      var so := After(p, d, calls[..|calls| - 1]);
      var turn := Called(p, so.drive, calls[|calls| - 1]);
      Outcome(turn.drive, so.deliveries + turn.deliveries)
  }

  function Count(calls: seq<Call>): nat {
    if calls == [] then 0
    else Count(calls[..|calls| - 1]) + if calls[|calls| - 1].Answered? then 1 else 0
  }

  /** Everything on these pages. */
  function Contents(pages: seq<Page>): seq<Delivery> {
    if pages == [] then [] else Contents(pages[..|pages| - 1]) + Deliveries(pages[|pages| - 1].entries)
  }

  /** Where a round is after `n` pages of those that were pending. */
  predicate HasRead(p: Provider, pages: seq<Page>, n: nat, so: Outcome) {
    && Ready(so.drive)
    && if n < |pages| then
         !so.drive.done && so.deliveries == Contents(pages[..n]) && Pending(p, so.drive) == pages[n..]
       else
         && pages != [] && so.drive.done && so.deliveries == Contents(pages)
         && so.drive.cursor == pages[|pages| - 1].cursor && so.drive.cursor.Some?
  }

  lemma ContentsNext(pages: seq<Page>, n: nat)
    requires n < |pages|
    ensures Contents(pages[..n + 1]) == Contents(pages[..n]) + Deliveries(pages[n].entries)
  {
    assert pages[..n + 1][..n] == pages[..n];
  }

  lemma HasReadNext(p: Provider, pages: seq<Page>, n: nat, so: Outcome, call: Call)
    requires Finite(p) && HasRead(p, pages, n, so) && !call.Rejected?
    ensures
      var turn := Called(p, so.drive, call);
      HasRead(p, pages, n + if call.Answered? then 1 else 0, Outcome(turn.drive, so.deliveries + turn.deliveries))
  {
    CallKeepsReady(p, so.drive, call);
    var turn := Called(p, so.drive, call);
    if n < |pages| {
      CallMovesOn(p, so.drive, call);
      ContentsNext(pages, n);
      if n + 1 == |pages| {
        assert pages[..n + 1] == pages;
      }
    } else {
      assert turn == Turn(so.drive, [], false);
    }
  }

  /** Wherever a round stands, it is done as soon as as many of its calls are answered as pages
      are pending, however many are not; until then it has delivered as many of the pages, in
      order, and at the end all of them. */
  lemma {:induction false} RoundEnds(p: Provider, d: Drive, calls: seq<Call>)
    requires Finite(p) && Ready(d) && !d.done && Rejected !in calls
    ensures HasRead(p, Pending(p, d), Count(calls), After(p, d, calls))
  {
    if calls == [] {
      CallMovesOn(p, d, Answered);
    } else {
      var init, call := calls[..|calls| - 1], calls[|calls| - 1];
      RoundEnds(p, d, init);
      HasReadNext(p, Pending(p, d), Count(init), After(p, d, init), call);
    }
  }
}
