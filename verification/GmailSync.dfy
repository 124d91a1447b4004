/**
 One round of the Gmail source: a full listing from a history cursor taken before it, or a
 crawl of the history from the last cursor.  Details are read message by message, and a page
 whose details could not all be read is read again.
 */
module GmailSync {
  import opened Basics

  type Id = nat

  /** Page tokens and history cursors; a history cursor is a position of the history. */
  type Token = nat

  /** How reading a message's detail ends: it is gone when the provider does not know it. */
  datatype Detail = Found | Missing | Unread

  /** A listed or added message with how its detail reads, or a deleted one. */
  datatype Entry = Message(id: Id, detail: Detail) | Deleted(id: Id)

  datatype Page = Page(entries: seq<Entry>, continuation: Option<Token>, cursor: Option<Token>)

  /** A failed call may reject the continuation, or say that the history has expired. */
  datatype Failure = Rejected | Expired | Broken

  datatype Fetched<T> = Lost(failure: Failure) | Got(value: T)

  datatype Delivery = Upsert(id: Id) | Delete(id: Id)

  /** The Gmail part of a checkpoint; `incremental` is the common part's start time. */
  datatype Gmail = Gmail(
    captured: bool,
    anchor: Option<Token>,
    cursor: Option<Token>,
    continuation: Option<Token>,
    history: Option<Token>,
    done: bool,
    incremental: bool)

  const FRESH := Gmail(false, None, None, None, None, false, false)

  predicate NeedsRestart(g: Gmail) {
    !g.captured && (g.continuation.Some? || g.done || g.cursor.Some?)
  }

  /** The next round's checkpoint after a complete one. */
  function Restored(g: Gmail): Gmail {
    if g.cursor.Some? && g.captured then FRESH.(incremental := true, captured := true, cursor := g.cursor)
    else FRESH.(incremental := true)
  }

  function Deliveries(entries: seq<Entry>): seq<Delivery> {
    if entries == [] then []
    else Deliveries(entries[..|entries| - 1]) + DeliveryOf(entries[|entries| - 1])
  }

  function DeliveryOf(e: Entry): seq<Delivery> {
    match e
    case Deleted(id) => [Delete(id)]
    case Message(id, Found) => [Upsert(id)]
    case Message(_, _) => []
  }

  predicate AllRead(entries: seq<Entry>) {
    forall e <- entries :: e.Message? ==> e.detail != Unread
  }

  datatype Turn = Turn(gmail: Gmail, deliveries: seq<Delivery>, failed: bool)

  /** A failed round drops the listing's continuation when it was rejected.  The history's
      own continuation is not among those that are dropped. */
  function Failed(g: Gmail, failure: Failure): Turn {
    Turn(if failure == Rejected then g.(continuation := None) else g, [], true)
  }

  function HistoryTurn(g: Gmail, page: Fetched<Page>): Turn {
    if page.Lost? then
      if page.failure == Expired then
        Turn(g.(history := None, anchor := None, cursor := None, incremental := false), [], true)
      else Failed(g, page.failure)
    else
      var deliveries := Deliveries(page.value.entries);
      if !AllRead(page.value.entries) then Turn(g, deliveries, false)
      else if page.value.continuation.Some? then Turn(g.(history := page.value.continuation), deliveries, false)
      else
        var next := if page.value.cursor.Some? then g.(cursor := page.value.cursor) else g;
        Turn(next.(anchor := None, history := None, done := true), deliveries, false)
  }

  function ListTurn(g: Gmail, page: Fetched<Page>): Turn {
    if page.Lost? then Failed(g, page.failure)
    else
      var deliveries := Deliveries(page.value.entries);
      if !AllRead(page.value.entries) then Turn(g, deliveries, false)
      else if page.value.continuation.Some? then Turn(g.(continuation := page.value.continuation), deliveries, false)
      else if g.anchor.None? then Turn(g.(continuation := None, done := true), deliveries, false)
      else Turn(g.(continuation := None, done := true, cursor := g.anchor, anchor := None), deliveries, false)
  }

  /** The whole round as a function of the checkpoint and the provider's answers. */
  function Round(gmail: Gmail, profile: Fetched<Option<Token>>, page: Fetched<Page>): Turn {
    var g := if NeedsRestart(gmail) then FRESH.(incremental := gmail.incremental) else gmail;
    if g.done then Turn(g, [], false)
    else if g.incremental && (g.anchor.Some? || g.cursor.Some?) then
      HistoryTurn(if g.anchor.Some? then g else g.(anchor := g.cursor), page)
    else if g.anchor.Some? then ListTurn(g, page)
    else if profile.Lost? then Failed(g, profile.failure)
    else if profile.value.None? then ListTurn(g, page)
    else ListTurn(g.(captured := true, anchor := profile.value), page)
  }

  lemma DeliveriesNext(entries: seq<Entry>, i: nat)
    requires i < |entries|
    ensures Deliveries(entries[..i + 1]) == Deliveries(entries[..i]) + DeliveryOf(entries[i])
  {
    assert entries[..i + 1][..i] == entries[..i];
  }

  /** Reads the details one by one; any that cannot be read makes the page be retried. */
  method MessageDocuments(entries: seq<Entry>) returns (documents: seq<Delivery>, retry: bool)
    ensures documents == Deliveries(entries)
    ensures retry <==> !AllRead(entries)
  {
    documents, retry := [], false;
    for i := 0 to |entries|
      invariant documents == Deliveries(entries[..i])
      invariant retry <==> !AllRead(entries[..i])
    {
      DeliveriesNext(entries, i);
      assert entries[..i + 1] == entries[..i] + [entries[i]];
      match entries[i] {
        case Deleted(id) => documents := documents + [Delete(id)];
        case Message(id, Found) => documents := documents + [Upsert(id)];
        case Message(_, Missing) => documents := documents + [];
        case Message(_, Unread) =>
          assert entries[i] in entries[..i + 1];
          retry := true;
      }
    }
    assert entries[..|entries|] == entries;
  }

  class GmailSource {
    var gmail: Gmail

    constructor (gmail: Gmail)
      ensures this.gmail == gmail
    {
      this.gmail := gmail;
    }

    /** A round works on the checkpoint in place. */
    method SyncRound(profile: Fetched<Option<Token>>, page: Fetched<Page>)
      returns (documents: seq<Delivery>, failed: bool)
      modifies this
      ensures Turn(gmail, documents, failed) == Round(old(gmail), profile, page)
    {
      if NeedsRestart(gmail) {
        gmail := FRESH.(incremental := gmail.incremental);
      }
      if gmail.done { return [], false; }
      if gmail.incremental && gmail.anchor.None? && gmail.cursor.Some? {
        gmail := gmail.(anchor := gmail.cursor);
      }
      if gmail.incremental && gmail.anchor.Some? {
        documents, failed := Crawl(page);
      } else {
        if gmail.anchor.None? {
          if profile.Lost? {
            Fail(profile.failure);
            return [], true;
          }
          if profile.value.Some? {
            gmail := gmail.(captured := true);
            gmail := gmail.(anchor := profile.value);
          }
        }
        documents, failed := List(page);
      }
    }

    method Fail(failure: Failure)
      modifies this
      ensures gmail == Failed(old(gmail), failure).gmail
    {
      if failure == Rejected {
        gmail := gmail.(continuation := None);
      }
    }

    method Crawl(page: Fetched<Page>) returns (documents: seq<Delivery>, failed: bool)
      modifies this
      ensures Turn(gmail, documents, failed) == HistoryTurn(old(gmail), page)
    {
      if page.Lost? {
        if page.failure == Expired {
          gmail := gmail.(history := None, anchor := None);
          gmail := gmail.(cursor := None, incremental := false);
        } else {
          Fail(page.failure);
        }
        return [], true;
      }
      var retry;
      documents, retry := MessageDocuments(page.value.entries);
      failed := false;
      if retry { return; }
      if page.value.continuation.None? {
        if page.value.cursor.Some? {
          gmail := gmail.(cursor := page.value.cursor);
        }
        gmail := gmail.(anchor := None, history := None);
        gmail := gmail.(done := true);
      } else {
        gmail := gmail.(history := page.value.continuation);
      }
    }

    method List(page: Fetched<Page>) returns (documents: seq<Delivery>, failed: bool)
      requires !gmail.done
      modifies this
      ensures Turn(gmail, documents, failed) == ListTurn(old(gmail), page)
    {
      if page.Lost? {
        Fail(page.failure);
        return [], true;
      }
      var retry;
      documents, retry := MessageDocuments(page.value.entries);
      failed := false;
      if retry { return; }
      if page.value.continuation.None? {
        gmail := gmail.(done := true, continuation := None);
      } else {
        gmail := gmail.(continuation := page.value.continuation);
      }
      if gmail.done && gmail.anchor.Some? {
        gmail := gmail.(cursor := gmail.anchor);
        gmail := gmail.(anchor := None);
      }
    }
  }

  /** The checkpoint after a run of failed rounds. */
  function AfterFailures(g: Gmail, profile: Fetched<Option<Token>>, failures: seq<Failure>): Gmail {
    if failures == [] then g
    else Round(AfterFailures(g, profile, failures[..|failures| - 1]), profile, Lost(failures[|failures| - 1])).gmail
  }

  /** However often a crawl's calls fail, rejected continuations included, its history
      continuation is asked for again with the checkpoint exactly as it was, and it is given
      up exactly when the history expires. */
  lemma {:induction false} HistoryContinuationStays(
    g: Gmail, token: Token, profile: Fetched<Option<Token>>, failures: seq<Failure>)
    requires g.captured && g.incremental && !g.done && g.continuation.None? && g.anchor.Some? &&
      g.history == Some(token)
    ensures AfterFailures(g, profile, failures).history == Some(token) <==> Expired !in failures
    ensures Expired !in failures ==> AfterFailures(g, profile, failures) == g
    ensures Expired in failures ==>
      var h := AfterFailures(g, profile, failures);
      h.history.None? && !h.incremental && !h.done && h.captured && h.continuation.None?
  {
    if failures == [] {
    } else {
      var init, last := failures[..|failures| - 1], failures[|failures| - 1];
      HistoryContinuationStays(g, token, profile, init);
      assert failures == init + [last];
    }
  }

  /** A listing's continuation is given up exactly when one of the calls rejects it. */
  lemma {:induction false} ListingContinuationDrops(
    g: Gmail, token: Token, profile: Fetched<Option<Token>>, failures: seq<Failure>)
    requires g.captured && !g.incremental && !g.done && g.anchor.Some? && g.continuation == Some(token)
    ensures AfterFailures(g, profile, failures) == if Rejected in failures then g.(continuation := None) else g
  {
    if failures == [] {
    } else {
      var init, last := failures[..|failures| - 1], failures[|failures| - 1];
      ListingContinuationDrops(g, token, profile, init);
      assert failures == init + [last];
    }
  }
}
