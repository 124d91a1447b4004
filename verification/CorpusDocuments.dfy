/**
 What an accepted result does to the documents, said of each object by its last mention, and
 when a result is accepted and counts as a change.
 */
module CorpusDocuments {
  import opened Basics
  import opened CorpusState
  import opened CorpusCommit

  /** The position of the last document about an object. */
  function LastMention(items: seq<Document>, k: Key): (last: Option<nat>)
    ensures last.Some? ==> last.value < |items| && items[last.value].key == k
    ensures last.Some? ==> forall j | last.value < j < |items| :: items[j].key != k
    ensures last.None? ==> forall d <- items :: d.key != k
  {
    if items == [] then None
    else
      var n := |items| - 1;
      if items[n].key == k then Some(n) else LastMention(items[..n], k)
  }

  /** The deletion of an Outlook message takes the attachments of that message with it. */
  predicate Takes(d: Document, c: Id, parent: Option<nat>) {
    d.deleted && d.key.connection == c && d.orphans.Some? && d.orphans == parent
  }

  predicate TakenFrom(items: seq<Document>, i: nat, c: Id, parent: Option<nat>) {
    exists j | i <= j < |items| :: Takes(items[j], c, parent)
  }

  predicate SameRecord(a: Documents, b: Documents, k: Key) {
    (k in a <==> k in b) && (k in a ==> a[k] == b[k])
  }

  /** What becomes of an object: one last mentioned by a deletion is gone; one last delivered
      is there as it was delivered, unless its parent was deleted afterwards; any other is as
      it was, unless its parent was deleted. */
  predicate Follows(before: Documents, items: seq<Document>, after: Documents, k: Key) {
    var last := LastMention(items, k);
    if last.None? then
      if k in before && TakenFrom(items, 0, k.connection, before[k].parent) then k !in after
      else SameRecord(before, after, k)
    else
      var d := items[last.value];
      if d.deleted || TakenFrom(items, last.value + 1, k.connection, d.parent) then k !in after
      else k in after && after[k].digest == d.digest && after[k].parent == d.parent && after[k].details == d.details
  }

  lemma TakenNext(items: seq<Document>, i: nat, c: Id, parent: Option<nat>)
    requires items != [] && i <= |items| - 1
    ensures
      var n := |items| - 1;
      TakenFrom(items, i, c, parent) <==> TakenFrom(items[..n], i, c, parent) || Takes(items[n], c, parent)
  {
    var n := |items| - 1;
    forall j | i <= j < n ensures items[..n][j] == items[j] {}
    if TakenFrom(items[..n], i, c, parent) {
      var j :| i <= j < n && Takes(items[..n][j], c, parent);
      assert Takes(items[j], c, parent);
    }
  }

  /** After an accepted result every object is as its last mention, and the deletions of its
      parent since, say. */
  lemma {:induction false} DocumentsFollow(policy: Policy, documents: Documents, items: seq<Document>, k: Key)
    requires Propose(policy, documents, items).Some?
    ensures Follows(documents, items, Propose(policy, documents, items).value.documents, k)
  {
    if items == [] {
    } else {
      var n := |items| - 1;
      var init, d := items[..n], items[n];
      DocumentsFollow(policy, documents, init, k);
      OneFollows(policy, Propose(policy, documents, init).value, d, k);
      if d.key != k {
        var last := LastMention(init, k);
        if last.None? {
          if k in documents { TakenNext(items, 0, k.connection, documents[k].parent); }
        } else {
          TakenNext(items, last.value + 1, k.connection, init[last.value].parent);
        }
      } else {
        assert !TakenFrom(items, n + 1, k.connection, d.parent);
      }
    }
  }

  lemma AllFollow(policy: Policy, documents: Documents, items: seq<Document>)
    requires Propose(policy, documents, items).Some?
    ensures forall k :: Follows(documents, items, Propose(policy, documents, items).value.documents, k)
  {
    forall k ensures Follows(documents, items, Propose(policy, documents, items).value.documents, k) {
      DocumentsFollow(policy, documents, items, k);
    }
  }

  lemma OneFollows(policy: Policy, p: Draft, d: Document, k: Key)
    requires ProposeOne(policy, p, d).Some?
    ensures
      var after := ProposeOne(policy, p, d).value.documents;
      if d.key == k then
        if d.deleted then k !in after
        else k in after && after[k].digest == d.digest && after[k].parent == d.parent && after[k].details == d.details
      else if k in p.documents && Takes(d, k.connection, p.documents[k].parent) then k !in after
      else SameRecord(p.documents, after, k)
  {
  }

  lemma OneChanges(policy: Policy, p: Draft, d: Document)
    requires ProposeOne(policy, p, d).Some?
    ensures
      var q := ProposeOne(policy, p, d).value;
      q.Changed() <==> p.Changed() || RowsOf(p.documents) != RowsOf(q.documents)
  {
    var q := ProposeOne(policy, p, d).value;
    var before, after := RowsOf(p.documents), RowsOf(q.documents);
    assert before.Keys == p.documents.Keys && after.Keys == q.documents.Keys;
    if d.deleted {
      var children := Children(p.documents - {d.key}, d.key.connection, d.orphans);
      if d.key !in p.documents && children == {} {
        assert q.documents == p.documents;
      } else if d.key in p.documents {
        assert d.key in before && d.key !in after;
      } else {
        var child :| child in children;
        assert child in before && child !in after;
      }
    } else if d.key in p.documents && p.documents[d.key].digest == d.digest {
      assert before == after;
    } else {
      assert after[d.key].digest == d.digest;
    }
  }

  predicate TooMuch(documents: Documents, d: Document) {
    !d.deleted && (d.size > MAX_DOCUMENT_BYTES || (d.key !in documents && |documents| >= MAX_DOCUMENTS))
  }

  /** The document at this position is too large, or new although there are as many as there
      may be. */
  predicate StopsAt(policy: Policy, documents: Documents, items: seq<Document>, i: nat)
    requires i < |items|
  {
    var p := Propose(policy, documents, items[..i]);
    p.Some? && TooMuch(p.value.documents, items[i])
  }

  /** The document at this position changes the rows. */
  predicate ChangesAt(policy: Policy, documents: Documents, items: seq<Document>, i: nat)
    requires i < |items|
  {
    var p, q := Propose(policy, documents, items[..i]), Propose(policy, documents, items[..i + 1]);
    p.Some? && q.Some? && RowsOf(p.value.documents) != RowsOf(q.value.documents)
  }

  lemma StopNext(policy: Policy, documents: Documents, items: seq<Document>, i: nat)
    requires i < |items|
    ensures Propose(policy, documents, items[..i + 1]).None? <==>
      Propose(policy, documents, items[..i]).None? || StopsAt(policy, documents, items, i)
  {
    ProposeNext(policy, documents, items, i);
  }

  /** From where nothing has been refused yet, something is. */
  lemma {:induction false} FirstStop(policy: Policy, documents: Documents, items: seq<Document>, n: nat)
    returns (i: nat)
    requires n <= |items| && Propose(policy, documents, items[..n]).Some?
    requires Propose(policy, documents, items).None?
    ensures i < |items| && StopsAt(policy, documents, items, i)
    decreases |items| - n
  {
    assert items[..|items|] == items;
    i := n;
    if !StopsAt(policy, documents, items, n) {
      StopNext(policy, documents, items, n);
      i := FirstStop(policy, documents, items, n + 1);
    }
  }

  lemma StopRefuses(policy: Policy, documents: Documents, items: seq<Document>, i: nat)
    requires i < |items| && StopsAt(policy, documents, items, i)
    ensures Propose(policy, documents, items).None?
  {
    ProposeNext(policy, documents, items, i);
    ProposeRefuses(policy, documents, items, i + 1);
  }

  /** A result is refused exactly when one of its documents is too much. */
  lemma RefusedExactly(policy: Policy, documents: Documents, items: seq<Document>)
    ensures Propose(policy, documents, items).None? <==>
      exists i | 0 <= i < |items| :: StopsAt(policy, documents, items, i)
  {
    if Propose(policy, documents, items).None? {
      var i := FirstStop(policy, documents, items, 0);
    } else if i: nat :| i < |items| && StopsAt(policy, documents, items, i) {
      StopRefuses(policy, documents, items, i);
    }
  }

  lemma ChangedNext(policy: Policy, documents: Documents, items: seq<Document>, i: nat)
    requires i < |items| && Propose(policy, documents, items[..i + 1]).Some?
    ensures Propose(policy, documents, items[..i]).Some?
    ensures Propose(policy, documents, items[..i + 1]).value.Changed() <==>
      Propose(policy, documents, items[..i]).value.Changed() || ChangesAt(policy, documents, items, i)
  {
    ProposeNext(policy, documents, items, i);
    OneChanges(policy, Propose(policy, documents, items[..i]).value, items[i]);
  }

  lemma {:induction false} SomeChange(policy: Policy, documents: Documents, items: seq<Document>, n: nat)
    returns (i: nat)
    requires n <= |items| && Propose(policy, documents, items[..n]).Some?
    requires Propose(policy, documents, items[..n]).value.Changed()
    ensures i < n && ChangesAt(policy, documents, items, i)
  {
    if n == 0 {
      assert false;
    } else {
      ChangedNext(policy, documents, items, n - 1);
      if Propose(policy, documents, items[..n - 1]).value.Changed() {
        i := SomeChange(policy, documents, items, n - 1);
      } else {
        i := n - 1;
      }
    }
  }

  lemma AcceptedUpTo(policy: Policy, documents: Documents, items: seq<Document>, i: nat)
    requires i <= |items| && Propose(policy, documents, items).Some?
    ensures Propose(policy, documents, items[..i]).Some?
  {
    if Propose(policy, documents, items[..i]).None? {
      ProposeRefuses(policy, documents, items, i);
    }
  }

  lemma {:induction false} ChangeStays(policy: Policy, documents: Documents, items: seq<Document>, i: nat)
    requires i <= |items| && Propose(policy, documents, items).Some?
    requires Propose(policy, documents, items[..i]).Some? && Propose(policy, documents, items[..i]).value.Changed()
    ensures Propose(policy, documents, items).value.Changed()
    decreases |items| - i
  {
    if i == |items| {
      assert items[..i] == items;
    } else {
      AcceptedUpTo(policy, documents, items, i + 1);
      ChangedNext(policy, documents, items, i);
      ChangeStays(policy, documents, items, i + 1);
    }
  }

  /** It counts as a change exactly when one of its documents changes the rows. */
  lemma ChangedExactly(policy: Policy, documents: Documents, items: seq<Document>)
    requires Propose(policy, documents, items).Some?
    ensures Propose(policy, documents, items).value.Changed() <==>
      exists i | 0 <= i < |items| :: ChangesAt(policy, documents, items, i)
  {
    assert items[..|items|] == items;
    if Propose(policy, documents, items).value.Changed() {
      var i := SomeChange(policy, documents, items, |items|);
    } else if i: nat :| i < |items| && ChangesAt(policy, documents, items, i) {
      AcceptedUpTo(policy, documents, items, i + 1);
      ChangedNext(policy, documents, items, i);
      ChangeStays(policy, documents, items, i + 1);
    }
  }
}
