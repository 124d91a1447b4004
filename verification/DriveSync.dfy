/**
 One round of the Google Drive source: take a change anchor, list files page by page, then
 read the change log from the anchor page by page.
 */
module DriveSync {
  import opened Basics

  type Id = nat

  /** Page tokens and change cursors; a change cursor is a position of the change log. */
  type Token = nat

  /** What a file is to the corpus: `Plain` files are live but nothing is extracted from
      them. */
  datatype FileState = Gone | Trashed | Plain | Text(version: nat)

  /** One entry of a listing or of the change log, with how extraction went. */
  datatype Entry =
    | Removed(file: Id)
    | Bare(file: Id)
    | Other(file: Id, reported: Id)
    | Shown(file: Id, state: FileState, gap: bool)

  /** A document delivered to the corpus. */
  datatype Delivery = Delete(file: Id) | Upsert(file: Id, note: Note)

  /** A stored document: the revision it was made of, and whether it is only a gap note. */
  datatype Note = Note(version: Option<nat>, gap: bool)

  datatype Page = Page(entries: seq<Entry>, continuation: Option<Token>, cursor: Option<Token>)

  /** A provider call that fails may say that the continuation was not accepted. */
  datatype Fetched<T> = Lost(continuationRejected: bool) | Got(value: T)

  datatype Phase = Unset | Files | Changes

  /** The Drive part of a checkpoint. */
  datatype Drive = Drive(
    phase: Phase,
    anchor: Option<Token>,
    captured: bool,
    continuation: Option<Token>,
    changes: Option<Token>,
    cursor: Option<Token>,
    done: bool,
    fullScan: bool,
    legacy: bool)

  const FRESH := Drive(Unset, None, false, None, None, None, false, false, false)

  predicate NeedsBootstrap(d: Drive) {
    d.legacy || (!d.captured && (d.continuation.Some? || d.done || d.cursor.Some?))
  }

  /** The next round's checkpoint after a complete one. */
  function Restored(d: Drive): Drive {
    if d.cursor.Some? && d.captured then FRESH.(captured := true, cursor := d.cursor) else FRESH.(legacy := true)
  }

  function Cleared(d: Drive): Drive {
    d.(continuation := None, changes := None)
  }

  /** The document of a listed file, if it has one. */
  function FileDelivery(file: Id, state: FileState, gap: bool): seq<Delivery> {
    match state
    case Trashed => [Delete(file)]
    case Text(version) => [Upsert(file, Note(Some(version), gap))]
    case _ => []
  }

  function EntryDelivery(e: Entry): seq<Delivery> {
    match e
    case Removed(f) => [Delete(f)]
    case Bare(f) => [Upsert(f, Note(None, true))]
    case Other(_, _) => []
    case Shown(f, state, gap) => FileDelivery(f, state, gap)
  }

  function Deliveries(entries: seq<Entry>): seq<Delivery> {
    if entries == [] then [] else Deliveries(entries[..|entries| - 1]) + EntryDelivery(entries[|entries| - 1])
  }

  predicate Consistent(entries: seq<Entry>) {
    forall e <- entries :: e.Other? ==> e.reported == e.file
  }

  datatype Turn = Turn(drive: Drive, deliveries: seq<Delivery>, failed: bool)

  function Failed(d: Drive, continuationRejected: bool): Turn {
    Turn(if continuationRejected then Cleared(d) else d, [], true)
  }

  function FilesTurn(d: Drive, page: Fetched<Page>): Turn {
    if page.Lost? then Failed(d, page.continuationRejected)
    else
      Turn(if page.value.continuation.None? then d.(continuation := None, fullScan := false, phase := Changes)
           else d.(continuation := page.value.continuation),
           Deliveries(page.value.entries), false)
  }

  function ChangesTurn(d: Drive, page: Fetched<Page>): Turn {
    if d.anchor.None? then Failed(d, false)
    else if page.Lost? then Failed(d, page.continuationRejected)
    else if !Consistent(page.value.entries) then Failed(d, false)
    else
      var deliveries := Deliveries(page.value.entries);
      if page.value.continuation.Some? then Turn(d.(changes := page.value.continuation), deliveries, false)
      else if page.value.cursor.None? then Turn(d.(changes := None), deliveries, false)
      else Turn(d.(changes := None, cursor := page.value.cursor, anchor := None, done := true), deliveries, false)
  }

  /** The whole round as a function of the checkpoint and the provider's answers. */
  function Round(drive: Drive, start: Fetched<Option<Token>>, page: Fetched<Page>): Turn {
    var d := if NeedsBootstrap(drive) then FRESH.(fullScan := true) else drive;
    if d.done then Turn(d, [], false)
    else if d.phase.Files? then FilesTurn(d, page)
    else if d.phase.Changes? then ChangesTurn(d, page)
    else if d.cursor.Some? then ChangesTurn(d.(anchor := d.cursor, phase := Changes), page)
    else if start.Lost? then Failed(d, start.continuationRejected)
    else if start.value.None? then Failed(d, false)
    else FilesTurn(d.(anchor := start.value, captured := true, phase := Files), page)
  }

  lemma DeliveriesNext(entries: seq<Entry>, i: nat)
    requires i < |entries|
    ensures Deliveries(entries[..i + 1]) == Deliveries(entries[..i]) + EntryDelivery(entries[i])
  {
    assert entries[..i + 1][..i] == entries[..i];
  }

  class DriveSource {
    var drive: Drive

    constructor (drive: Drive)
      ensures this.drive == drive
    {
      this.drive := drive;
    }

    /** A round works on the checkpoint in place.  A failed round delivers nothing, and
        keeps whatever it had already changed. */
    method SyncRound(start: Fetched<Option<Token>>, page: Fetched<Page>)
      returns (documents: seq<Delivery>, failed: bool)
      modifies this
      ensures Turn(drive, documents, failed) == Round(old(drive), start, page)
    {
      documents, failed := [], true;
      if NeedsBootstrap(drive) {
        drive := FRESH;
        drive := drive.(fullScan := true);
      }
      if drive.done { return [], false; }
      if !drive.phase.Files? && !drive.phase.Changes? {
        if drive.cursor.Some? {
          drive := drive.(anchor := drive.cursor);
          drive := drive.(phase := Changes);
        } else if start.Lost? {
          Fail(start.continuationRejected);
          return;
        } else if start.value.None? {
          return;
        } else {
          drive := drive.(anchor := start.value, captured := true);
          drive := drive.(phase := Files);
        }
      }
      if drive.phase.Files? {
        if page.Lost? {
          Fail(page.continuationRejected);
          return;
        }
        documents := ListDocuments(page.value.entries);
        failed := false;
        if page.value.continuation.None? {
          drive := drive.(continuation := None, fullScan := false);
          drive := drive.(phase := Changes);
        } else {
          drive := drive.(continuation := page.value.continuation);
        }
      } else {
        if drive.anchor.None? { return; }
        if page.Lost? {
          Fail(page.continuationRejected);
          return;
        }
        var usable;
        documents, usable := ChangeDocuments(page.value.entries);
        if !usable { return [], true; }
        failed := false;
        if page.value.continuation.Some? {
          drive := drive.(changes := page.value.continuation);
        } else {
          drive := drive.(changes := None);
          if page.value.cursor.Some? {
            drive := drive.(cursor := page.value.cursor, anchor := None, done := true);
          }
        }
      }
    }

    method Fail(continuationRejected: bool)
      modifies this
      ensures drive == if continuationRejected then Cleared(old(drive)) else old(drive)
    {
      if continuationRejected {
        drive := drive.(continuation := None);
        drive := drive.(changes := None);
      }
    }
  }

  method ListDocuments(entries: seq<Entry>) returns (documents: seq<Delivery>)
    ensures documents == Deliveries(entries)
  {
    documents := [];
    for i := 0 to |entries|
      invariant documents == Deliveries(entries[..i])
    {
      DeliveriesNext(entries, i);
      documents := documents + EntryDelivery(entries[i]);
    }
    assert entries[..|entries|] == entries;
  }

  method ChangeDocuments(entries: seq<Entry>) returns (documents: seq<Delivery>, usable: bool)
    ensures usable <==> Consistent(entries)
    ensures usable ==> documents == Deliveries(entries)
  {
    documents, usable := [], true;
    for i := 0 to |entries|
      invariant documents == Deliveries(entries[..i])
      invariant Consistent(entries[..i])
    {
      DeliveriesNext(entries, i);
      match entries[i] {
        case Removed(f) => documents := documents + [Delete(f)];
        case Bare(f) => documents := documents + [Upsert(f, Note(None, true))];
        case Other(f, reported) =>
          if reported != f {
            assert entries[i] in entries;
            return documents, false;
          }
        case Shown(f, state, gap) => documents := documents + FileDelivery(f, state, gap);
      }
    }
    assert entries[..|entries|] == entries;
  }
}
