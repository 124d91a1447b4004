/**
 The documents the provider modules speak of are those of the corpus: committing what a round
 delivered does to the corpus what applying the deliveries does to them.
 */
module CorpusProviders {
  import opened Basics
  import opened CorpusState
  import opened CorpusCommit
  import opened CorpusDocuments
  import DriveSync
  import DriveRuns
  import GmailSync
  import GmailRuns
  import OutlookSync
  import OutlookRuns

  /** What a delivery says of an object: it has a document, of this content if it is known, or
      it has none. */
  datatype Telling = Kept(name: nat, content: Option<Digest>) | Gone(name: nat)

  /** The objects of a connection with a document. */
  type Objects = map<nat, Option<Digest>>

  function Tell(objects: Objects, t: Telling): Objects {
    match t
    case Kept(o, content) => objects[o := content]
    case Gone(o) => objects - {o}
  }

  function TellAll(objects: Objects, ts: seq<Telling>): Objects {
    if ts == [] then objects else Tell(TellAll(objects, ts[..|ts| - 1]), ts[|ts| - 1])
  }

  predicate RendersOne(d: Document, t: Telling) {
    && d.key.name == t.name && d.parent.None?
    && if t.Gone? then d.deleted else !d.deleted && (t.content.Some? ==> d.digest == t.content.value)
  }

  /** The documents of a result say this of the connection's messages and files, whatever
      they say of their attachments. */
  predicate Renders(items: seq<Document>, c: Id, whole: nat -> bool, ts: seq<Telling>) {
    if items == [] then ts == []
    else
      var init, d := items[..|items| - 1], items[|items| - 1];
      && d.key.connection == c
      && if !whole(d.key.name) then Renders(init, c, whole, ts)
         else ts != [] && RendersOne(d, ts[|ts| - 1]) && Renders(init, c, whole, ts[..|ts| - 1])
  }

  /** The corpus has documents for exactly these messages and files of a connection. */
  ghost predicate Holds(documents: Documents, c: Id, whole: nat -> bool, objects: Objects) {
    forall o: nat | whole(o) ::
      && (Key(c, o) in documents <==> o in objects)
      && (o in objects ==> documents[Key(c, o)].parent.None?)
      && (o in objects && objects[o].Some? ==> documents[Key(c, o)].digest == objects[o].value)
  }

  lemma OneKeepsHolds(policy: Policy, p: Draft, d: Document, c: Id, whole: nat -> bool, objects: Objects, t: Telling)
    requires Holds(p.documents, c, whole, objects) && ProposeOne(policy, p, d).Some? && d.key.connection == c
    requires whole(d.key.name) ==> RendersOne(d, t)
    ensures
      var after := ProposeOne(policy, p, d).value.documents;
      Holds(after, c, whole, if whole(d.key.name) then Tell(objects, t) else objects)
  {
  }

  /** A committed result does to the documents of messages and files what it says. */
  lemma {:induction false} CommitKeepsHolds(policy: Policy, documents: Documents, items: seq<Document>, c: Id,
      whole: nat -> bool, objects: Objects, ts: seq<Telling>)
    requires Holds(documents, c, whole, objects) && Renders(items, c, whole, ts)
    requires Propose(policy, documents, items).Some?
    ensures Holds(Propose(policy, documents, items).value.documents, c, whole, TellAll(objects, ts))
  {
    if items == [] {
    } else {
      var init, d := items[..|items| - 1], items[|items| - 1];
      var p := Propose(policy, documents, init).value;
      if whole(d.key.name) {
        var n := |ts| - 1;
        CommitKeepsHolds(policy, documents, init, c, whole, objects, ts[..n]);
        OneKeepsHolds(policy, p, d, c, whole, TellAll(objects, ts[..n]), ts[n]);
      } else {
        CommitKeepsHolds(policy, documents, init, c, whole, objects, ts);
        OneKeepsHolds(policy, p, d, c, whole, TellAll(objects, ts), Gone(0));
      }
    }
  }

  /** A committed result of another connection changes nothing of this one. */
  lemma {:induction false} OthersKeepHolds(policy: Policy, documents: Documents, items: seq<Document>, c: Id,
      whole: nat -> bool, objects: Objects)
    requires Holds(documents, c, whole, objects) && Propose(policy, documents, items).Some?
    requires forall d <- items :: d.key.connection != c
    ensures Holds(Propose(policy, documents, items).value.documents, c, whole, objects)
  {
    forall o: nat | whole(o)
      ensures SameRecord(documents, Propose(policy, documents, items).value.documents, Key(c, o))
    {
      DocumentsFollow(policy, documents, items, Key(c, o));
    }
  }

  // ----------------------------------------------------------------------
  // Drive
  // ----------------------------------------------------------------------

  /** The content made of a file. */
  type Texts = (DriveSync.Id, DriveSync.Note) -> Digest

  function DriveObjects(files: DriveRuns.Documents, texts: Texts): Objects {
    map f | f in files :: Some(texts(f, files[f]))
  }

  function DriveTelling(d: DriveSync.Delivery, texts: Texts): Telling {
    match d
    case Delete(f) => Gone(f)
    case Upsert(f, note) => Kept(f, Some(texts(f, note)))
  }

  function DriveTellings(ds: seq<DriveSync.Delivery>, texts: Texts): (ts: seq<Telling>)
    ensures |ts| == |ds|
  {
    if ds == [] then [] else DriveTellings(ds[..|ds| - 1], texts) + [DriveTelling(ds[|ds| - 1], texts)]
  }

  lemma {:induction false} DriveTells(files: DriveRuns.Documents, ds: seq<DriveSync.Delivery>, texts: Texts)
    ensures DriveObjects(DriveRuns.ApplyAll(files, ds), texts) ==
      TellAll(DriveObjects(files, texts), DriveTellings(ds, texts))
  {
    if ds == [] {
    } else {
      var init, d := ds[..|ds| - 1], ds[|ds| - 1];
      DriveTells(files, init, texts);
      var ts := DriveTellings(ds, texts);
      assert ts[..|ts| - 1] == DriveTellings(init, texts);
      assert DriveObjects(DriveRuns.Apply(DriveRuns.ApplyAll(files, init), d), texts) ==
        Tell(DriveObjects(DriveRuns.ApplyAll(files, init), texts), DriveTelling(d, texts));
    }
  }

  /** Committing a Drive round applies its deliveries to the connection's documents. */
  lemma DriveCommits(policy: Policy, documents: Documents, items: seq<Document>, c: Id, whole: nat -> bool,
      files: DriveRuns.Documents, ds: seq<DriveSync.Delivery>, texts: Texts)
    requires Holds(documents, c, whole, DriveObjects(files, texts))
    requires Renders(items, c, whole, DriveTellings(ds, texts)) && Propose(policy, documents, items).Some?
    ensures Holds(Propose(policy, documents, items).value.documents, c, whole,
                  DriveObjects(DriveRuns.ApplyAll(files, ds), texts))
  {
    DriveTells(files, ds, texts);
    CommitKeepsHolds(policy, documents, items, c, whole, DriveObjects(files, texts), DriveTellings(ds, texts));
  }

  // ----------------------------------------------------------------------
  // Gmail
  // ----------------------------------------------------------------------

  function GmailObjects(messages: set<GmailSync.Id>): Objects {
    map m | m in messages :: None
  }

  function GmailTelling(d: GmailSync.Delivery): Telling {
    match d
    case Delete(m) => Gone(m)
    case Upsert(m) => Kept(m, None)
  }

  function GmailTellings(ds: seq<GmailSync.Delivery>): (ts: seq<Telling>)
    ensures |ts| == |ds|
  {
    if ds == [] then [] else GmailTellings(ds[..|ds| - 1]) + [GmailTelling(ds[|ds| - 1])]
  }

  lemma {:induction false} GmailTells(messages: set<GmailSync.Id>, ds: seq<GmailSync.Delivery>)
    ensures GmailObjects(GmailRuns.ApplyAll(messages, ds)) == TellAll(GmailObjects(messages), GmailTellings(ds))
  {
    if ds == [] {
    } else {
      var init, d := ds[..|ds| - 1], ds[|ds| - 1];
      GmailTells(messages, init);
      var ts := GmailTellings(ds);
      assert ts[..|ts| - 1] == GmailTellings(init);
      assert GmailObjects(GmailRuns.Apply(GmailRuns.ApplyAll(messages, init), d)) ==
        Tell(GmailObjects(GmailRuns.ApplyAll(messages, init)), GmailTelling(d));
    }
  }

  /** Committing a Gmail round applies its deliveries to the connection's documents. */
  lemma GmailCommits(policy: Policy, documents: Documents, items: seq<Document>, c: Id, whole: nat -> bool,
      messages: set<GmailSync.Id>, ds: seq<GmailSync.Delivery>)
    requires Holds(documents, c, whole, GmailObjects(messages))
    requires Renders(items, c, whole, GmailTellings(ds)) && Propose(policy, documents, items).Some?
    ensures Holds(Propose(policy, documents, items).value.documents, c, whole,
                  GmailObjects(GmailRuns.ApplyAll(messages, ds)))
  {
    GmailTells(messages, ds);
    CommitKeepsHolds(policy, documents, items, c, whole, GmailObjects(messages), GmailTellings(ds));
  }

  // ----------------------------------------------------------------------
  // Outlook
  // ----------------------------------------------------------------------

  function OutlookObjects(messages: OutlookRuns.Documents): Objects {
    map m | m in messages :: None
  }

  function OutlookTelling(d: OutlookSync.Delivery): Telling {
    match d
    case Delete(m) => Gone(m)
    case Upsert(m) => Kept(m, None)
  }

  function OutlookTellings(ds: seq<OutlookSync.Delivery>): (ts: seq<Telling>)
    ensures |ts| == |ds|
  {
    if ds == [] then [] else OutlookTellings(ds[..|ds| - 1]) + [OutlookTelling(ds[|ds| - 1])]
  }

  lemma {:induction false} OutlookTells(messages: OutlookRuns.Documents, ds: seq<OutlookSync.Delivery>, now: nat)
    ensures OutlookObjects(OutlookRuns.ApplyAll(messages, ds, now)) ==
      TellAll(OutlookObjects(messages), OutlookTellings(ds))
  {
    if ds == [] {
    } else {
      var init, d := ds[..|ds| - 1], ds[|ds| - 1];
      OutlookTells(messages, init, now);
      var ts := OutlookTellings(ds);
      assert ts[..|ts| - 1] == OutlookTellings(init);
      assert OutlookObjects(OutlookRuns.Apply(OutlookRuns.ApplyAll(messages, init, now), d, now)) ==
        Tell(OutlookObjects(OutlookRuns.ApplyAll(messages, init, now)), OutlookTelling(d));
    }
  }

  /** Committing an Outlook round applies its deliveries to the connection's documents. */
  lemma OutlookCommits(policy: Policy, documents: Documents, items: seq<Document>, c: Id, whole: nat -> bool,
      messages: OutlookRuns.Documents, ds: seq<OutlookSync.Delivery>, now: nat)
    requires Holds(documents, c, whole, OutlookObjects(messages))
    requires Renders(items, c, whole, OutlookTellings(ds)) && Propose(policy, documents, items).Some?
    ensures Holds(Propose(policy, documents, items).value.documents, c, whole,
                  OutlookObjects(OutlookRuns.ApplyAll(messages, ds, now)))
  {
    OutlookTells(messages, ds, now);
    CommitKeepsHolds(policy, documents, items, c, whole, OutlookObjects(messages), OutlookTellings(ds));
  }
}
