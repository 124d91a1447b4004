/**
 The app corpus itself: each method is one section run under the corpus lock.
 */
module Corpora {
  import opened Basics
  import opened CorpusState
  import opened CorpusCommit
  import opened CorpusCursor
  import opened CorpusDocuments
  import opened CorpusRuns

  /** How a commit ends: the connection changed during the read, the result is refused, it
      died before its state was in place, or it committed. */
  datatype Outcome = Changed | Rejected | Died | Committed(indexed: bool)

  class Corpus {
    const policy: Policy
    var stored: Stored
    var disk: Disk
    ghost var history: seq<Commit>
    /** The contents objects have had. */
    ghost var contents: Contents

    ghost function Image(): World
      reads this
    {
      World(stored, disk, history, contents)
    }

    ghost predicate Valid()
      reads this
    {
      policy.Distinguishes(contents) && Sound(policy, Image())
    }

    constructor (policy: Policy)
      ensures Valid() && this.policy == policy && Image() == World(EMPTY, map[], [], {})
    {
      this.policy := policy;
      stored, disk, history, contents := EMPTY, map[], [], {};
      new;
      EmptyIsSound(policy);
    }

    /** Opens a sync: the provider then reads without the lock, from `t.opening.given`. */
    method BeginSync(c: Id, oldShape: bool, fits: Checkpoint -> bool) returns (t: Ticket)
      ensures Issued(t) && t.connection == c && TokenHolds(stored, t)
      ensures !t.opening.gmailRewound && !t.opening.outlookRewound ==>
        var entry := stored.ConnectionOf(c);
        t.opening.given == if entry.resume.Some? then entry.resume else entry.complete
    {
      var prior := stored.ConnectionOf(c);
      t := Ticket(c, prior, stored.ScopeOf(c), Start(prior, oldShape, fits));
      StartsFromStored(prior, oldShape, fits);
    }

    /** Commits a provider's result, whatever happened to the corpus since the ticket was
        issued.  A committed result that says it is indexed is. */
    method CommitSync(t: Ticket, reply: Reply, fate: Fate) returns (outcome: Outcome)
      requires Valid() && Issued(t)
      requires policy.Distinguishes(contents + ContentsOf(reply.documents))
      modifies this
      ensures Valid() && Image() == Next(policy, old(Image()), Committing(t, reply, fate))
      ensures outcome.Changed? <==> !old(TokenHolds(stored, t))
      ensures outcome.Rejected? <==>
        && old(TokenHolds(stored, t))
        && (|| !Owned(reply, t.connection)
            || exists i | 0 <= i < |reply.documents| :: StopsAt(policy, old(stored.documents), reply.documents, i))
      ensures outcome.Died? <==>
        var accepted := old(Accepted(policy, stored, t, reply));
        accepted.Some? && (fate.leaves < |accepted.value.writes| || !fate.state)
      ensures outcome.Committed? <==> history != old(history)
      ensures outcome.Committed? ==>
        forall k :: Follows(old(stored.documents), reply.documents, stored.documents, k)
      ensures !outcome.Committed? ==> stored == old(stored)
      ensures outcome.Committed? ==>
        && (outcome.indexed <==> stored.fingerprint == Some(Fingerprint(Visible(policy, stored.documents))))
        && (outcome.indexed ==> AllCurrent(stored.bindings, Visible(policy, stored.documents)))
    {
      NextKeepsSound(policy, Image(), Committing(t, reply, fate));
      RefusedExactly(policy, stored.documents, reply.documents);
      contents := contents + ContentsOf(reply.documents);
      if !TokenHolds(stored, t) { return Changed; }
      if !Owned(reply, t.connection) { return Rejected; }
      var draft := Draw(reply.documents);
      if draft.None? { return Rejected; }
      var finished := WriteLeaves(draft.value.writes, fate.leaves);
      if !finished || !fate.state { return Died; }
      var entry := Entry(t.prior, t.opening, reply.checkpoint, reply.complete, reply.status, reply.scanned);
      history := history + [Commit(t.connection, stored.ConnectionOf(t.connection), t.opening, reply, entry,
                                   t.scope, stored.ScopeOf(t.connection))];
      var changed := draft.value.Changed();
      AllFollow(policy, stored.documents, reply.documents);
      stored := stored.(documents := draft.value.documents, connections := stored.connections[t.connection := entry]);
      if changed { stored := stored.(fingerprint := None); }
      return Committed(!changed && stored.fingerprint == Some(Fingerprint(Visible(policy, stored.documents))));
    }

    /** Works through the delivered documents, in order. */
    method Draw(items: seq<Document>) returns (draft: Option<Draft>)
      ensures draft == Propose(policy, stored.documents, items)
    {
      var documents, writes, removals := stored.documents, [], false;
      for i := 0 to |items|
        invariant Propose(policy, stored.documents, items[..i]) == Some(Draft(documents, writes, removals))
      {
        var d := items[i];
        ProposeNext(policy, stored.documents, items, i);
        if d.deleted {
          removals := removals || d.key in documents;
          documents := documents - {d.key};
          var children := Children(documents, d.key.connection, d.orphans);
          removals := removals || children != {};
          documents := documents - children;
        } else {
          if d.size > MAX_DOCUMENT_BYTES || (d.key !in documents && |documents| >= MAX_DOCUMENTS) {
            ProposeRefuses(policy, stored.documents, items, i + 1);
            return None;
          }
          var path := Tagged(d.key, policy.tag(d.digest));
          if d.key in documents && documents[d.key].digest == d.digest {
            path := documents[d.key].path;
          } else {
            removals := removals || d.key in documents;
            writes := writes + [Write(path, d.digest)];
          }
          documents := documents[d.key := Record(d.digest, path, d.parent, d.details)];
        }
      }
      assert items[..|items|] == items;
      return Some(Draft(documents, writes, removals));
    }

    /** Writes leaves one by one; dies after `patience` of them. */
    method WriteLeaves(writes: seq<Write>, patience: nat) returns (finished: bool)
      modifies this`disk
      ensures finished <==> |writes| <= patience
      ensures disk == Laid(old(disk), if finished then writes else writes[..patience])
    {
      var i := 0;
      while i < |writes| && i < patience
        invariant i <= |writes| && i <= patience
        invariant disk == Laid(old(disk), writes[..i])
      {
        disk := disk[writes[i].path := writes[i].digest];
        assert writes[..i + 1][..i] == writes[..i];
        i := i + 1;
      }
      assert writes[..|writes|] == writes;
      return i == |writes|;
    }

    /** Makes a failed cycle visible; only the status of the entry changes. */
    method RecordFailure(c: Id, status: Status) returns (accepted: bool)
      requires Valid()
      modifies this`stored
      ensures Valid() && (accepted <==> status.Partial? || status.Error? || status.Refused?)
      ensures Image() == if accepted then FailureStep(old(Image()), c, status) else old(Image())
    {
      if !(status.Partial? || status.Error? || status.Refused?) { return false; }
      NextKeepsSound(policy, Image(), Failing(c, status));
      var prior := stored.ConnectionOf(c);
      var entry := Connection(prior.complete, prior.resume, prior.gmail, prior.outlook, status, prior.scanned);
      stored := stored.(connections := stored.connections[c := entry]);
      return true;
    }

    /** Configures a connection; without settings, an unchanged adapter keeps its own. */
    method Configure(c: Id, adapter: nat, settings: Option<nat>, standard: nat) returns (scope: Scope)
      requires Valid()
      modifies this`stored
      ensures Valid() && Image() == ConfigureStep(old(Image()), c, scope)
      ensures scope.adapter == adapter
      ensures
        var existing := old(stored).ScopeOf(c);
        scope.settings ==
          if settings.Some? then settings.value
          else if existing.Some? && existing.value.adapter == adapter then existing.value.settings
          else standard
    {
      var existing := stored.ScopeOf(c);
      var chosen := standard;
      if settings.Some? {
        chosen := settings.value;
      } else if existing.Some? && existing.value.adapter == adapter {
        chosen := existing.value.settings;
      }
      scope := Scope(adapter, chosen);
      NextKeepsSound(policy, Image(), Configuring(c, scope));
      stored := stored.(scopes := stored.scopes[c := scope]);
    }

    /** Opens a refresh: nothing to do when everything is current; otherwise orphaned leaves
        are removed, until `patience` runs out, and the visible documents are the snapshot
        to index. */
    method BeginRefresh(patience: nat) returns (snapshot: Option<Documents>)
      requires Valid()
      modifies this`disk
      ensures Valid()
      ensures exists removed :: Image() == CleanStep(policy, old(Image()), removed)
      ensures snapshot.None? <==> AllCurrent(stored.bindings, Visible(policy, stored.documents))
      ensures snapshot.Some? ==>
        && snapshot.value == Visible(policy, stored.documents)
        && (patience >= |old(disk).Keys| ==> Orphans(policy, stored.documents, disk) == {})
    {
      var visible := Visible(policy, stored.documents);
      if AllCurrent(stored.bindings, visible) {
        assert Image() == CleanStep(policy, Image(), {});
        return None;
      }
      ghost var before := Image();
      ghost var removed := RemoveOrphans(visible, patience);
      assert removed * Orphans(policy, stored.documents, before.disk) == removed;
      assert Image() == CleanStep(policy, before, removed);
      NextKeepsSound(policy, before, Cleaning(removed));
      return Some(visible);
    }

    /** Removes orphaned leaves one by one, until `patience` runs out. */
    method RemoveOrphans(visible: Documents, patience: nat) returns (ghost removed: set<Path>)
      modifies this`disk
      ensures removed <= Unnamed(visible, old(disk)) && disk == old(disk) - removed
      ensures patience >= |old(disk).Keys| ==> Unnamed(visible, disk) == {}
    {
      removed := {};
      var names, left := disk.Keys, patience;
      while names != {} && left > 0
        invariant removed <= Unnamed(visible, old(disk)) && disk == old(disk) - removed
        invariant names <= old(disk).Keys && Unnamed(visible, disk) <= names
        invariant left + |old(disk).Keys| >= patience + |names|
        decreases left
      {
        var p :| p in names;
        names, left := names - {p}, left - 1;
        if p.Tagged? && (p.key !in visible || visible[p.key].path != p) {
          removed := removed + {p};
          disk := disk - {p};
        }
      }
    }

    /** Publishes the binding of a connection indexed from `snapshot`, unless its documents
        have changed meanwhile. */
    method PublishBinding(snapshot: Documents, c: Id) returns (bound: bool)
      requires Valid() && ScopeFingerprint(snapshot, c).Some?
      modifies this`stored
      ensures Valid()
      ensures Image() == BindStep(policy, old(Image()), c, ScopeFingerprint(snapshot, c).value)
      ensures bound <==> Current(stored.bindings, Visible(policy, stored.documents), c)
                         && ScopeFingerprint(snapshot, c) == ScopeFingerprint(Visible(policy, stored.documents), c)
    {
      var rows := ScopeFingerprint(snapshot, c).value;
      BindKeepsSound(policy, Image(), c, rows);
      if ScopeFingerprint(Visible(policy, stored.documents), c) != Some(rows) { return false; }
      BindingKeepsIndexed(policy, stored.documents, stored.fingerprint, stored.bindings, c, rows);
      if c !in stored.bindings || stored.bindings[c] != Binding(rows, rows) {
        stored := stored.(bindings := stored.bindings[c := Binding(rows, rows)]);
      } else {
        assert stored.bindings == stored.bindings[c := Binding(rows, rows)];
      }
      return true;
    }

    /** Closes a refresh: the index fingerprint is stored exactly when every connection's
        binding is current. */
    method FinishRefresh() returns (ready: bool)
      requires Valid()
      modifies this`stored
      ensures Valid() && Image() == FinishStep(policy, old(Image()))
      ensures ready <==> AllCurrent(stored.bindings, Visible(policy, stored.documents))
      ensures ready <==> stored.fingerprint.Some?
    {
      FinishKeepsSound(policy, Image());
      var visible := Visible(policy, stored.documents);
      ready := AllCurrent(stored.bindings, visible);
      var fingerprint := Fingerprint(visible);
      StoreFingerprint(ready, fingerprint);
    }

    /** Stores the fingerprint, or forgets it, if that is a change. */
    method StoreFingerprint(ready: bool, fingerprint: Print)
      modifies this`stored
      ensures stored == old(stored).(fingerprint := if ready then Some(fingerprint) else None)
    {
      if (stored.fingerprint != Some(fingerprint) && ready) || (stored.fingerprint.Some? && !ready) {
        stored := stored.(fingerprint := if ready then Some(fingerprint) else None);
      }
    }
  }
}
