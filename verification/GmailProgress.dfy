/**
 A Gmail round over finite listings and histories moves on page by page and ends.
 */
module GmailProgress {
  import opened Basics
  import opened GmailSync

  /** What a call asks for: a page of messages, or of the history from a position. */
  datatype Query = Listing(continuation: Option<Token>) | HistoryFrom(position: Token)

  function Continued(q: Query, token: Token): Query {
    match q
    case Listing(_) => Listing(Some(token))
    case HistoryFrom(_) => HistoryFrom(token)
  }

  /** A provider with the history cursor it gives and the pages still to come when it is
      asked. */
  datatype Provider = Provider(profile: Token, reader: Query -> Page, feed: Query -> seq<Page>)

  /** Each query is answered by the first page of its feed, whose continuation asks for the
      others; the details of its messages can be read. */
  predicate Served(p: Provider, q: Query) {
    var pages := p.feed(q);
    && |pages| > 0 && p.reader(q) == pages[0] && AllRead(pages[0].entries)
    && (match pages[0].continuation
        case Some(token) => p.feed(Continued(q, token)) == pages[1..] && |pages| > 1
        case None => |pages| == 1)
  }

  ghost predicate Finite(p: Provider) {
    forall q :: Served(p, q)
  }

  // ----------------------------------------------------------------------
  // What is pending
  // ----------------------------------------------------------------------

  /** The checkpoint a round works on. */
  function Working(g: Gmail): Gmail {
    if NeedsRestart(g) then FRESH.(incremental := g.incremental) else g
  }

  predicate Crawls(g: Gmail) {
    g.incremental && (g.anchor.Some? || g.cursor.Some?)
  }

  /** A later round without a cursor to crawl from: one before it ended without any. */
  predicate Stray(g: Gmail) {
    g.incremental && g.anchor.None? && g.cursor.None?
  }

  /** Every checkpoint a round leaves is of this kind, and so are those of the next one, if it
      has a cursor. */
  predicate Ready(g: Gmail) {
    !NeedsRestart(g) && (g.anchor.Some? ==> g.captured) && !Stray(g)
  }

  /** The question a call asks. */
  function QueryOf(g: Gmail): Query {
    if !Crawls(g) then Listing(g.continuation)
    else if g.history.Some? then HistoryFrom(g.history.value)
    else HistoryFrom(if g.anchor.Some? then g.anchor.value else g.cursor.value)
  }

  /** The pages a round still has to read. */
  function Pending(p: Provider, g: Gmail): seq<Page> {
    if g.done then [] else p.feed(QueryOf(g))
  }

  /** How a call ends: with the page it asked for, with the page but its details read
      otherwise, or without it. */
  datatype Call = Answered | Partly(details: nat -> Detail) | Unanswered

  /** The page with its details as they were read. */
  function WithDetails(entries: seq<Entry>, details: nat -> Detail): (read: seq<Entry>)
    ensures |read| == |entries|
  {
    seq(|entries|, i requires 0 <= i < |entries| =>
      if entries[i].Message? then Message(entries[i].id, details(i)) else entries[i])
  }

  function PageOf(p: Provider, g: Gmail, call: Call): Fetched<Page> {
    var page := p.reader(QueryOf(g));
    match call
    case Answered => Got(page)
    case Partly(details) => Got(page.(entries := WithDetails(page.entries, details)))
    case Unanswered => Lost(Broken)
  }

  /** Whether a call reads its page in full. */
  predicate Reads(p: Provider, g: Gmail, call: Call) {
    var page := PageOf(p, g, call);
    page.Got? && AllRead(page.value.entries)
  }

  function Called(p: Provider, g: Gmail, call: Call): Turn {
    Round(g, Got(Some(p.profile)), PageOf(p, Working(g), call))
  }

  /** Where a round ends: a listing at the history cursor taken before it, a crawl at the one
      its last page gives. */
  function Cursor(p: Provider, g: Gmail, last: Page): Option<Token> {
    if !Crawls(g) then Some(if g.anchor.Some? then g.anchor.value else p.profile)
    else if last.cursor.Some? then last.cursor
    else g.cursor
  }

  /** A call that reads its page in full takes the first pending page off, delivers it, and
      ends the round with the last one.  Any other call leaves the pages pending. */
  lemma CallMovesOn(p: Provider, g: Gmail, call: Call)
    requires Ready(g) && Finite(p) && !g.done
    ensures Pending(p, g) != []
    ensures
      var turn, pages := Called(p, g, call), Pending(p, g);
      && (turn.gmail.done || Ready(turn.gmail))
      && (call.Answered? ==> turn.deliveries == Deliveries(pages[0].entries))
      && (call.Unanswered? ==> turn.deliveries == [])
      && if Reads(p, g, call) then
           && Pending(p, turn.gmail) == pages[1..]
           && (turn.gmail.done <==> |pages| == 1)
           && (turn.gmail.done ==> turn.gmail.captured && turn.gmail.cursor == Cursor(p, g, pages[0]))
           && (!turn.gmail.done ==> forall last :: Cursor(p, turn.gmail, last) == Cursor(p, g, last))
         else
           && Pending(p, turn.gmail) == pages && !turn.gmail.done
           && forall last :: Cursor(p, turn.gmail, last) == Cursor(p, g, last)
  {
    assert Served(p, QueryOf(g));
  }

  /** The round after one that ended at a cursor crawls the history from there. */
  lemma NextRoundCrawls(p: Provider, g: Gmail)
    requires g.done && g.captured && g.cursor.Some?
    ensures Ready(Restored(g)) && Pending(p, Restored(g)) == p.feed(HistoryFrom(g.cursor.value))
  {
  }

  // ----------------------------------------------------------------------
  // A round
  // ----------------------------------------------------------------------

  datatype Outcome = Outcome(gmail: Gmail, deliveries: seq<Delivery>)

  function After(p: Provider, g: Gmail, calls: seq<Call>): Outcome {
    if calls == [] then Outcome(g, [])
    else
      var so := After(p, g, calls[..|calls| - 1]);
      var turn := Called(p, so.gmail, calls[|calls| - 1]);
      Outcome(turn.gmail, so.deliveries + turn.deliveries)
  }

  /** How many of the calls read a page in full. */
  function Count(p: Provider, g: Gmail, calls: seq<Call>): nat {
    if calls == [] then 0
    else
      var init := calls[..|calls| - 1];
      Count(p, g, init) +
      if Reads(p, Working(After(p, g, init).gmail), calls[|calls| - 1]) then 1 else 0
  }

  /** Everything on these pages. */
  function Contents(pages: seq<Page>): seq<Delivery> {
    if pages == [] then [] else Contents(pages[..|pages| - 1]) + Deliveries(pages[|pages| - 1].entries)
  }

  /** Where a round that began at `g` is after `n` pages of those that were pending. */
  ghost predicate HasRead(p: Provider, g: Gmail, n: nat, gmail: Gmail) {
    var pages := Pending(p, g);
    if n < |pages| then
      && !gmail.done && Ready(gmail) && Pending(p, gmail) == pages[n..]
      && forall last :: Cursor(p, gmail, last) == Cursor(p, g, last)
    else
      pages != [] && gmail.done && gmail.captured && gmail.cursor == Cursor(p, g, pages[|pages| - 1])
  }

  /** It has delivered these pages, in order. */
  predicate HasDelivered(pages: seq<Page>, n: nat, deliveries: seq<Delivery>) {
    deliveries == Contents(if n < |pages| then pages[..n] else pages)
  }

  lemma ContentsNext(pages: seq<Page>, n: nat)
    requires n < |pages|
    ensures Contents(pages[..n + 1]) == Contents(pages[..n]) + Deliveries(pages[n].entries)
    ensures n + 1 == |pages| ==> pages[..n + 1] == pages
  {
    assert pages[..n + 1][..n] == pages[..n];
  }

  lemma HasReadNext(p: Provider, g: Gmail, n: nat, gmail: Gmail, call: Call)
    requires Finite(p) && HasRead(p, g, n, gmail)
    ensures
      HasRead(p, g, n + if Reads(p, Working(gmail), call) then 1 else 0, Called(p, gmail, call).gmail)
  {
    if n < |Pending(p, g)| {
      CallMovesOn(p, gmail, call);
    }
  }

  lemma HasDeliveredNext(p: Provider, g: Gmail, n: nat, so: Outcome, call: Call)
    requires Finite(p) && HasRead(p, g, n, so.gmail) && HasDelivered(Pending(p, g), n, so.deliveries) && !call.Partly?
    ensures
      HasDelivered(Pending(p, g), n + if Reads(p, Working(so.gmail), call) then 1 else 0,
                   so.deliveries + Called(p, so.gmail, call).deliveries)
  {
    var pages := Pending(p, g);
    if n < |pages| {
      CallMovesOn(p, so.gmail, call);
      assert Served(p, QueryOf(so.gmail));
      ContentsNext(pages, n);
    }
  }

  /** Wherever a round stands, it is done as soon as as many of its calls have read their page
      in full as pages are pending, however many have not. */
  lemma {:induction false} RoundEnds(p: Provider, g: Gmail, calls: seq<Call>)
    requires Finite(p) && Ready(g) && !g.done
    ensures HasRead(p, g, Count(p, g, calls), After(p, g, calls).gmail)
  {
    if calls == [] {
      CallMovesOn(p, g, Answered);
    } else {
      var init := calls[..|calls| - 1];
      RoundEnds(p, g, init);
      HasReadNext(p, g, Count(p, g, init), After(p, g, init).gmail, calls[|calls| - 1]);
    }
  }

  /** Until then it has delivered the pages it has read, in order, and at the end all of
      them. */
  lemma {:induction false} RoundDelivers(p: Provider, g: Gmail, calls: seq<Call>)
    requires Finite(p) && Ready(g) && !g.done && forall call <- calls :: !call.Partly?
    ensures HasDelivered(Pending(p, g), Count(p, g, calls), After(p, g, calls).deliveries)
  {
    if calls == [] {
    } else {
      var init, call := calls[..|calls| - 1], calls[|calls| - 1];
      var n, so := Count(p, g, init), After(p, g, init);
      RoundDelivers(p, g, init);
      assert HasRead(p, g, n, so.gmail) by { RoundEnds(p, g, init); }
      HasDeliveredNext(p, g, n, so, call);
    }
  }

  // ----------------------------------------------------------------------
  // A round that strays
  // ----------------------------------------------------------------------

  /** A listing without a history cursor ends without one, and so the next round strays. */
  lemma EndsWithoutCursor(g: Gmail, page: Page)
    requires Ready(g) && !g.done && !Crawls(g) && g.anchor.None? && g.cursor.None?
    requires page.continuation.None? && AllRead(page.entries)
    ensures
      var turn := Round(g, Got(None), Got(page));
      turn.gmail.done && Stray(Restored(turn.gmail)) && !NeedsRestart(Restored(turn.gmail))
  {
  }

  /** A page of a listing that goes on is followed by its next one exactly when the round does
      not stray. */
  lemma NextPageExactly(p: Provider, g: Gmail)
    requires Finite(p) && !NeedsRestart(g) && (g.anchor.Some? ==> g.captured) && !g.done && !Crawls(g)
    requires p.reader(QueryOf(g)).continuation.Some?
    ensures
      var turn := Called(p, g, Answered);
      QueryOf(turn.gmail) == Continued(QueryOf(g), p.reader(QueryOf(g)).continuation.value) <==> !Stray(g)
  {
    assert Served(p, QueryOf(g));
  }

  /** A listing that strays is given up at its first call, whether that reads its page, fails,
      or reads it in part: unless its page was the only one, the round goes on to crawl the
      history from the cursor it has just taken, and ends without the rest of the listing. */
  lemma StrayListingIsGivenUp(p: Provider, g: Gmail, first: Call, calls: seq<Call>)
    requires Finite(p) && !NeedsRestart(g) && Stray(g) && !g.done && g.history.None?
    requires |Pending(p, g)| > 1 || !Reads(p, g, first)
    ensures
      var gmail, history := Called(p, g, first).gmail, p.feed(HistoryFrom(p.profile));
      && Ready(gmail) && !gmail.done && Pending(p, gmail) == history
      && (Count(p, gmail, calls) >= |history| ==> After(p, gmail, calls).gmail.done)
      && ((forall call <- calls :: !call.Partly?) ==>
            HasDelivered(history, Count(p, gmail, calls), After(p, gmail, calls).deliveries))
  {
    assert Served(p, QueryOf(g));
    var gmail := Called(p, g, first).gmail;
    RoundEnds(p, gmail, calls);
    if forall call <- calls :: !call.Partly? {
      RoundDelivers(p, gmail, calls);
    }
  }
}
