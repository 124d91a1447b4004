/**
 The published state of the app corpus: document records, index fingerprint and search
 bindings.  Digests stand for the bytes they are taken of, and a fingerprint for the rows
 it is taken of.
 */
module CorpusState {
  import opened Basics

  type Id = nat

  /** A document key hashes the connection with the object's identifier. */
  datatype Key = Key(connection: Id, name: nat)

  type Digest = nat

  /** A leaf is named by its key and the first digits of its digest; the first release
      named it by its key alone. */
  datatype Path = Flat(key: Key) | Tagged(key: Key, tag: nat)

  datatype Record = Record(digest: Digest, path: Path, parent: Option<nat>, details: nat)

  type Documents = map<Key, Record>

  /** Objects with the digests they have had. */
  type Contents = set<(Key, Digest)>

  /** What is fixed for a run: which objects the channel policy shows, and the digits of a
      digest that go into a leaf's name. */
  datatype Policy = Policy(shown: Key -> bool, tag: Digest -> nat)
  {
    /** No two contents of one object share the digits that go into a leaf's name. */
    predicate Distinguishes(contents: Contents) {
      forall a, b | a in contents && b in contents && a.0 == b.0 && tag(a.1) == tag(b.1) :: a.1 == b.1
    }
  }

  function Visible(policy: Policy, documents: Documents): Documents {
    map k | k in documents && policy.shown(k) :: documents[k]
  }

  type Print = map<Key, Digest>

  datatype Row = Row(digest: Digest, path: Path)

  type Rows = map<Key, Row>

  function Fingerprint(documents: Documents): Print {
    map k | k in documents :: documents[k].digest
  }

  function RowsOf(documents: Documents): Rows {
    map k | k in documents :: Row(documents[k].digest, documents[k].path)
  }

  function ScopeRows(documents: Documents, c: Id): Rows {
    map k | k in documents && k.connection == c :: Row(documents[k].digest, documents[k].path)
  }

  function ScopeFingerprint(documents: Documents, c: Id): Option<Rows> {
    var rows := ScopeRows(documents, c);
    if rows == map[] then None else Some(rows)
  }

  datatype Binding = Binding(snapshot: Rows, scope: Rows)

  predicate Current(bindings: map<Id, Binding>, documents: Documents, c: Id) {
    var expected := ScopeFingerprint(documents, c);
    expected.Some? && c in bindings && bindings[c].snapshot == expected.value && bindings[c].scope == expected.value
  }

  predicate AllCurrent(bindings: map<Id, Binding>, documents: Documents) {
    documents != map[] && forall k <- documents :: Current(bindings, documents, k.connection)
  }

  /** A stored index fingerprint is that of the visible documents, and every connection's
      search binding is current. */
  predicate Indexed(policy: Policy, documents: Documents, fingerprint: Option<Print>, bindings: map<Id, Binding>) {
    fingerprint.Some? ==>
      && fingerprint.value == Fingerprint(Visible(policy, documents))
      && AllCurrent(bindings, Visible(policy, documents))
  }

  lemma ScopeRowsOf(policy: Policy, documents: Documents, c: Id)
    ensures ScopeRows(Visible(policy, documents), c) ==
      map k | k in RowsOf(documents) && policy.shown(k) && k.connection == c :: RowsOf(documents)[k]
  {
  }

  /** Indexing depends on the documents only through their digests and paths. */
  lemma RowsDecide(policy: Policy, a: Documents, b: Documents, fingerprint: Option<Print>, bindings: map<Id, Binding>)
    requires RowsOf(a) == RowsOf(b)
    ensures Fingerprint(Visible(policy, a)) == Fingerprint(Visible(policy, b))
    ensures Indexed(policy, a, fingerprint, bindings) ==> Indexed(policy, b, fingerprint, bindings)
  {
    assert a.Keys == RowsOf(a).Keys && b.Keys == RowsOf(b).Keys;
    forall k | k in a ensures a[k].digest == b[k].digest {
      assert RowsOf(a)[k] == RowsOf(b)[k];
    }
    var va, vb := Visible(policy, a), Visible(policy, b);
    assert va.Keys == vb.Keys;
    if fingerprint.Some? && AllCurrent(bindings, va) {
      assert vb != map[] by { assert va.Keys != {}; }
      forall k | k in vb ensures Current(bindings, vb, k.connection) {
        assert Current(bindings, va, k.connection);
        ScopeRowsOf(policy, a, k.connection);
        ScopeRowsOf(policy, b, k.connection);
      }
    }
  }

  /** Binding one connection to its current rows makes it current and no other stale. */
  lemma BindingKeepsIndexed(policy: Policy, documents: Documents, fingerprint: Option<Print>,
      bindings: map<Id, Binding>, c: Id, rows: Rows)
    requires Indexed(policy, documents, fingerprint, bindings)
    requires ScopeFingerprint(Visible(policy, documents), c) == Some(rows)
    ensures Indexed(policy, documents, fingerprint, bindings[c := Binding(rows, rows)])
    ensures Current(bindings[c := Binding(rows, rows)], Visible(policy, documents), c)
  {
  }
}
