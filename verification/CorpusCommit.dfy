/**
 What a provider's result does to the documents and to the content-addressed leaves.
 */
module CorpusCommit {
  import opened Basics
  import opened CorpusState

  const MAX_DOCUMENT_BYTES := 4_194_304
  const MAX_DOCUMENTS := 250_000

  /** A delivered document.  The deletion of an Outlook message with an immutable
      identifier names the message whose attachments go with it. */
  datatype Document = Document(
    key: Key,
    deleted: bool,
    orphans: Option<nat>,
    digest: Digest,
    size: nat,
    parent: Option<nat>,
    details: nat)

  datatype Write = Write(path: Path, digest: Digest)

  datatype Draft = Draft(documents: Documents, writes: seq<Write>, removals: bool)
  {
    predicate Changed() {
      writes != [] || removals
    }
  }

  function Children(documents: Documents, c: Id, parent: Option<nat>): set<Key> {
    if parent.None? then {}
    else set k | k in documents && k.connection == c && documents[k].parent == parent
  }

  /** One delivered document; `None` refuses the whole result. */
  function ProposeOne(policy: Policy, p: Draft, d: Document): Option<Draft> {
    if d.deleted then
      var kept := p.documents - {d.key};
      var children := Children(kept, d.key.connection, d.orphans);
      Some(Draft(kept - children, p.writes, p.removals || d.key in p.documents || children != {}))
    else if d.size > MAX_DOCUMENT_BYTES || (d.key !in p.documents && |p.documents| >= MAX_DOCUMENTS) then None
    else
      var leaf := Tagged(d.key, policy.tag(d.digest));
      var known := d.key in p.documents;
      var same := known && p.documents[d.key].digest == d.digest;
      var path := if same then p.documents[d.key].path else leaf;
      Some(Draft(p.documents[d.key := Record(d.digest, path, d.parent, d.details)],
                 if same then p.writes else p.writes + [Write(leaf, d.digest)],
                 p.removals || (known && !same)))
  }

  function Propose(policy: Policy, documents: Documents, items: seq<Document>): Option<Draft> {
    if items == [] then Some(Draft(documents, [], false))
    else
      var p := Propose(policy, documents, items[..|items| - 1]);
      if p.None? then None else ProposeOne(policy, p.value, items[|items| - 1])
  }

  lemma ProposeNext(policy: Policy, documents: Documents, items: seq<Document>, i: nat)
    requires i < |items|
    ensures Propose(policy, documents, items[..i + 1]) ==
      var p := Propose(policy, documents, items[..i]);
      if p.None? then None else ProposeOne(policy, p.value, items[i])
  {
    assert items[..i + 1][..i] == items[..i];
  }

  lemma {:induction false} ProposeRefuses(policy: Policy, documents: Documents, items: seq<Document>, i: nat)
    requires i <= |items| && Propose(policy, documents, items[..i]).None?
    ensures Propose(policy, documents, items).None?
    decreases |items| - i
  {
    if i < |items| {
      ProposeNext(policy, documents, items, i);
      ProposeRefuses(policy, documents, items, i + 1);
    } else {
      assert items[..i] == items;
    }
  }

  // ----------------------------------------------------------------------
  // Leaves
  // ----------------------------------------------------------------------

  type Disk = map<Path, Digest>

  function Laid(disk: Disk, writes: seq<Write>): Disk {
    if writes == [] then disk
    else Laid(disk, writes[..|writes| - 1])[writes[|writes| - 1].path := writes[|writes| - 1].digest]
  }

  predicate NameFits(policy: Policy, path: Path, digest: Digest) {
    path.Tagged? ==> path.tag == policy.tag(digest)
  }

  /** Every record names a leaf of its own key and digest. */
  predicate Named(policy: Policy, documents: Documents) {
    forall k <- documents :: documents[k].path.key == k && NameFits(policy, documents[k].path, documents[k].digest)
  }

  predicate LeavesNamed(policy: Policy, disk: Disk) {
    forall p <- disk :: NameFits(policy, p, disk[p])
  }

  /** Every content-addressed leaf holds a content its object has had. */
  predicate DiskWithin(disk: Disk, contents: Contents) {
    forall p <- disk | p.Tagged? :: (p.key, disk[p]) in contents
  }

  predicate WritesWithin(writes: seq<Write>, contents: Contents) {
    forall w <- writes :: (w.path.key, w.digest) in contents
  }

  function ContentsOf(items: seq<Document>): Contents {
    set d | d in items && !d.deleted :: (d.key, d.digest)
  }

  lemma {:induction false} ProposeWithin(policy: Policy, documents: Documents, items: seq<Document>)
    requires Propose(policy, documents, items).Some?
    ensures WritesWithin(Propose(policy, documents, items).value.writes, ContentsOf(items))
  {
    if items == [] {
    } else {
      var init, last := items[..|items| - 1], items[|items| - 1];
      ProposeWithin(policy, documents, init);
      assert ContentsOf(init) <= ContentsOf(items) by {
        assert forall d <- init :: d in items;
      }
      assert last in items;
    }
  }

  /** Every visible record's leaf is there with the record's bytes. */
  predicate Published(policy: Policy, documents: Documents, disk: Disk) {
    forall k <- documents | policy.shown(k) ::
      documents[k].path in disk && disk[documents[k].path] == documents[k].digest
  }

  predicate Justified(documents: Documents, draft: Draft, k: Key)
    requires k in draft.documents
  {
    || (k in documents && draft.documents[k].digest == documents[k].digest &&
      draft.documents[k].path == documents[k].path)
    || Write(draft.documents[k].path, draft.documents[k].digest) in draft.writes
  }

  predicate Drafted(policy: Policy, documents: Documents, draft: Draft) {
    && Named(policy, draft.documents)
    && (forall w <- draft.writes :: w.path.Tagged? && NameFits(policy, w.path, w.digest))
    && (forall k <- draft.documents :: Justified(documents, draft, k))
    && (draft.Changed() || RowsOf(draft.documents) == RowsOf(documents))
  }

  lemma {:induction false} DeletionDrafts(policy: Policy, documents: Documents, p: Draft, gone: set<Key>,
      removals: bool)
    requires Drafted(policy, documents, p)
    requires gone * p.documents.Keys != {} ==> removals
    requires p.removals ==> removals
    ensures Drafted(policy, documents, Draft(p.documents - gone, p.writes, removals))
  {
    var q := Draft(p.documents - gone, p.writes, removals);
    forall k | k in q.documents ensures Justified(documents, q, k) {
      assert Justified(documents, p, k);
    }
    if !q.Changed() {
      forall k | k in p.documents ensures k !in gone {
        assert k in gone ==> k in gone * p.documents.Keys;
      }
      assert q.documents == p.documents;
    }
  }

  lemma {:induction false} UpsertDrafts(policy: Policy, documents: Documents, p: Draft, d: Document)
    requires Drafted(policy, documents, p) && !d.deleted && ProposeOne(policy, p, d).Some?
    ensures Drafted(policy, documents, ProposeOne(policy, p, d).value)
  {
    var q := ProposeOne(policy, p, d).value;
    forall k | k in q.documents ensures Justified(documents, q, k) {
      if k in p.documents { assert Justified(documents, p, k); }
    }
    if !q.Changed() {
      assert RowsOf(q.documents) == RowsOf(p.documents);
    }
  }

  lemma {:induction false} ProposeOneDrafts(policy: Policy, documents: Documents, p: Draft, d: Document)
    requires Drafted(policy, documents, p) && ProposeOne(policy, p, d).Some?
    ensures Drafted(policy, documents, ProposeOne(policy, p, d).value)
  {
    if d.deleted {
      var children := Children(p.documents - {d.key}, d.key.connection, d.orphans);
      assert p.documents - {d.key} - children == p.documents - ({d.key} + children);
      DeletionDrafts(policy, documents, p, {d.key} + children,
                     p.removals || d.key in p.documents || children != {});
    } else {
      UpsertDrafts(policy, documents, p, d);
    }
  }

  /** Every record of a draft is unchanged or has its leaf among the writes, and a draft
      that reports no change has the rows it started from. */
  lemma {:induction false} ProposeDrafts(policy: Policy, documents: Documents, items: seq<Document>)
    requires Named(policy, documents) && Propose(policy, documents, items).Some?
    ensures Drafted(policy, documents, Propose(policy, documents, items).value)
  {
    if items == [] {
    } else {
      ProposeDrafts(policy, documents, items[..|items| - 1]);
      ProposeOneDrafts(policy, documents, Propose(policy, documents, items[..|items| - 1]).value, items[|items| - 1]);
    }
  }

  /** Writing leaves changes no leaf that is already there, when no two contents of an object
      share their digits. */
  lemma {:induction false} LaidKeeps(policy: Policy, contents: Contents, disk: Disk, writes: seq<Write>)
    requires policy.Distinguishes(contents) && LeavesNamed(policy, disk)
    requires DiskWithin(disk, contents) && WritesWithin(writes, contents)
    requires forall w <- writes :: w.path.Tagged? && NameFits(policy, w.path, w.digest)
    ensures
      var after := Laid(disk, writes);
      && LeavesNamed(policy, after) && DiskWithin(after, contents)
      && (forall p <- disk :: p in after && after[p] == disk[p])
      && (forall w <- writes :: w.path in after && after[w.path] == w.digest)
      && (forall p: Path | p.Flat? :: p in after <==> p in disk)
  {
    if writes == [] {
    } else {
      var init, last := writes[..|writes| - 1], writes[|writes| - 1];
      assert writes == init + [last];
      LaidKeeps(policy, contents, disk, init);
      LaidOne(policy, contents, Laid(disk, init), last);
    }
  }

  lemma LaidOne(policy: Policy, contents: Contents, disk: Disk, w: Write)
    requires policy.Distinguishes(contents) && LeavesNamed(policy, disk) && DiskWithin(disk, contents)
    requires w.path.Tagged? && NameFits(policy, w.path, w.digest) && (w.path.key, w.digest) in contents
    ensures w.path in disk ==> disk[w.path] == w.digest
  {
    if w.path in disk {
      assert (w.path.key, disk[w.path]) in contents;
      assert policy.tag(disk[w.path]) == policy.tag(w.digest);
    }
  }

  /** After the leaves of a draft are written, before and after its state is, the visible
      records have their leaves. */
  lemma {:induction false} DraftPublishes(
    policy: Policy, contents: Contents, documents: Documents, draft: Draft, disk: Disk, n: nat)
    requires policy.Distinguishes(contents) && LeavesNamed(policy, disk) && n <= |draft.writes|
    requires DiskWithin(disk, contents) && WritesWithin(draft.writes, contents)
    requires Published(policy, documents, disk) && Drafted(policy, documents, draft)
    ensures LeavesNamed(policy, Laid(disk, draft.writes[..n]))
    ensures Published(policy, documents, Laid(disk, draft.writes[..n]))
    ensures DiskWithin(Laid(disk, draft.writes[..n]), contents) && DiskWithin(Laid(disk, draft.writes), contents)
    ensures Published(policy, draft.documents, Laid(disk, draft.writes))
  {
    LaidKeeps(policy, contents, disk, draft.writes[..n]);
    LaidKeeps(policy, contents, disk, draft.writes);
    forall k | k in draft.documents && policy.shown(k)
      ensures
        var r, after := draft.documents[k], Laid(disk, draft.writes);
        r.path in after && after[r.path] == r.digest
    {
      assert Justified(documents, draft, k);
    }
  }

  /** When two contents of one object share the digits that go into a leaf's name, storing
      the second overwrites the leaf the published state still points to; a crash before
      the state is written then leaves a visible record with the wrong bytes. */
  lemma SharedDigitsLoseBytes(policy: Policy, k: Key, d: Digest, e: Digest)
    requires policy.shown(k) && d != e && policy.tag(d) == policy.tag(e)
    ensures
      var leaf := Tagged(k, policy.tag(d));
      var documents := map[k := Record(d, leaf, None, 0)];
      var draft := Propose(policy, documents, [Document(k, false, None, e, 0, None, 0)]);
      && Published(policy, documents, map[leaf := d])
      && draft.Some? && !Published(policy, documents, Laid(map[leaf := d], draft.value.writes))
  {
    var item := Document(k, false, None, e, 0, None, 0);
    var leaf := Tagged(k, policy.tag(d));
    var documents := map[k := Record(d, leaf, None, 0)];
    assert [item][..0] == [];
    assert Propose(policy, documents, [item]) == ProposeOne(policy, Draft(documents, [], false), item);
    assert [Write(leaf, e)][..0] == [];
    assert k in documents;
  }
}
