/**
 Exact replacement of one leaf: stage, quarantine, no-replace publication,
 verification, and rollback or commit.
 */
module Replacement {
  import opened Basics
  import opened Directories

  datatype Ending = Returned | Conflict | Invalid | Failed(outcome: Outcome)

  /** The flags the exception handlers consult. */
  datatype Progress = Progress(
    stage: Option<Name>,
    stageId: Inode,
    quarantine: Option<Name>,
    quarantineId: Option<Inode>,
    published: bool)

  /** The handler's test for a publication that took effect although its move raised. */
  predicate Confirms(atName: Stat, atStage: Stat, stageId: Inode) {
    atName == Found(stageId) && atStage.Absent?
  }

  /** A move of the operation took effect and raised, and a listing made to find that out
      did not show it. */
  predicate Slipped(l: Ledger) {
    l.notice.Missed?
  }

  /** What a conflict leaves at the name: nothing, unless what was found is back there or a
      publication slipped, which leaves the stage there. */
  predicate LeftInConflict(l: Ledger, stageId: Inode) {
    if Slipped(l) then l.placed == Some(Some(stageId)) else l.NetUnchanged() || l.placed == Some(None)
  }

  /** A raised publication and the two listings made after it. */
  function ListedTwice(past: Run, stage: Name, d: Entries, atName: Stat, atStage: Stat): Run {
    Then(Then(Then(past, RaisedMove(stage, Public), d), Listed(Public, atName), d), Listed(stage, atStage), d)
  }

  /** When nothing foreign happens between a raised publication and the two listings, it
      slips exactly when one of them fails. */
  lemma {:induction false} SlipsExactly(past: Run, stage: Name, d: Entries, atName: Stat, atStage: Stat)
    requires stage.Private? && past.now != d
    requires Lawful(ListedTwice(past, stage, d, atName, atStage))
    ensures
      var run := ListedTwice(past, stage, d, atName, atStage);
      Slipped(Audit(run)) <==> atName.StatFailed? || atStage.StatFailed?
  {
    var moved := Then(past, RaisedMove(stage, Public), d);
    var listed := Then(moved, Listed(Public, atName), d);
    assert Lawful(moved) && Lawful(listed);
    assert d.leaf == past.now.Of(stage) && d.Of(stage).None?;
    assert Audit(moved).notice == Untold(stage, d.leaf.value);
    assert Audit(listed).notice == Heard(Audit(moved).notice, Public, atName);
  }

  /** It can slip: the stage is written, the move puts it at the absent name and raises, and
      the first listing fails.  `Replace` then ends with UNPUBLISHED, as it says, while the
      replacement is at the name. */
  lemma UnnoticedPublication() returns (run: Run)
    ensures Lawful(run) && Origin(run).leaf.None? && run.now.leaf == Some(7)
    ensures Audit(run).created == {7} && Slipped(Audit(run)) && !Audit(run).NetUnchanged()
  {
    var empty := Entries(None, map[]);
    var written := empty.Put(Private(0), 7);
    empty.PutReaches(Private(0), 7);
    written.RenameKeepsInodes(Private(0), Public);
    var published := written.Rename(Private(0), Public);
    assert empty.Reach() == {} && written.Reach() == {7};
    var staged := Then(Start(empty), Own, written);
    assert Audit(Start(empty)) == BLANK && Audit(staged) == BLANK.Change(empty, written).Note(Own, empty, written);
    assert Origin(staged) == empty;
    assert Lawful(staged) && Audit(staged).created == {7} && Audit(staged).NetUnchanged();
    var moved := Then(staged, RaisedMove(Private(0), Public), published);
    assert Lawful(moved) && Audit(moved).notice == Untold(Private(0), 7) && Origin(moved) == Origin(staged);
    assert Audit(moved).placed == Some(Some(7)) && Audit(moved).displaced == Some(None);
    run := Then(moved, Listed(Public, StatFailed), published);
  }

  /** The leaf is in the state the caller expects. */
  predicate Holds(d: Entries, inodes: seq<Node>, expected: Option<Bytes>)
  {
    match expected
    case None => d.leaf.None?
    case Some(bytes) => d.leaf.Some? && d.leaf.value < |inodes| && inodes[d.leaf.value] == Regular(bytes)
  }

  /** The retained watch, if there is one, still names the leaf. */
  predicate Retains(d: Entries, retained: Option<Inode>) {
    retained.Some? ==> d.leaf == retained
  }

  /** Publication is done: the last thing put at the name is the staged inode, read back
      there since, and it displaced exactly the expected state. */
  predicate Accomplished(
    l: Ledger, inodes: seq<Node>, stageId: Inode,
    expected: Option<Bytes>, replacement: Bytes, retained: Option<Inode>)
  {
    && stageId < |inodes| && inodes[stageId] == Regular(replacement)
    && l.placed == Some(Some(stageId)) && stageId in l.created
    && l.verified == Some(stageId)
    && match expected
       case None => l.displaced == Some(None) && l.dropped == {} && l.notice.Told?
       case Some(bytes) =>
         && l.displaced.Some? && l.displaced.value.Some?
         && var prior := l.displaced.value.value;
            prior < |inodes| && inodes[prior] == Regular(bytes)
            && (retained.Some? ==> prior == retained.value)
            && l.dropped <= {prior}
  }

  /** With at most one fault and nothing foreign, a published stage stands at the name and the
      leaf the operation found under the quarantine name. */
  predicate LonePublished(run: Run, inodes: seq<Node>, p: Progress, expected: Option<Bytes>, replacement: Bytes) {
    var found := Origin(run).leaf;
    && run.now.leaf == Some(p.stageId) && p.stageId < |inodes| && inodes[p.stageId] == Regular(replacement)
    && match p.quarantine
       case None => found.None?
       case Some(q) => expected.Some? && LoneAside(run, inodes, q, p.quarantineId, expected.value)
  }

  /** The leaf the operation found is the expected one and is under the quarantine name. */
  predicate LoneAside(run: Run, inodes: seq<Node>, q: Name, id: Option<Inode>, expected: Bytes) {
    var found := Origin(run).leaf;
    found.Some? && run.now.Of(q) == found == id && found.value < |inodes| && inodes[found.value] == Regular(expected)
  }

  /** Where an attempt that has not published is interrupted with at most one fault and nothing
      foreign: the leaf the operation found is at the name, or can be put back there, unless
      the move that would tell has raised. */
  predicate LoneUnpublished(run: Run, p: Progress, e: Raised) {
    var d, found := run.now, Origin(run).leaf;
    && e != PublishError(Unknown)
    && (e == ConflictError ==> d.leaf == found)
    && (p.quarantine.Some? && e != ConflictError ==> Faults(run) == 1)
    && match p.quarantine
       case None => d.leaf == found
       case Some(q) =>
         if d.Of(q).Some? then d.leaf.None? && d.Of(q) == found
         else d.leaf == found && (e == ConflictError || RaisedMoves(run) > 0)
  }

  predicate LoneAttempt(
    run: Run, inodes: seq<Node>, p: Progress, e: Raised, expected: Option<Bytes>, replacement: Bytes)
  {
    if p.published then
      e !in {ConflictError, PublishError(Unknown)} && Faults(run) == 1
      && LonePublished(run, inodes, p, expected, replacement)
    else LoneUnpublished(run, p, e)
  }

  /** Moves the quarantined leaf back unless the public name is taken again. */
  method Restore(dir: Directory, quarantine: Name) returns (e: Raised, ghost before: Entries)
    requires dir.Valid() && quarantine.Private?
    modifies dir
    ensures dir.Valid() && dir.token == old(dir.token) && old(dir.inodes) <= dir.inodes
    ensures e in {Quiet, ConflictError, OsError, FileMissing}
    ensures before.hidden == old(dir.entries).hidden
    ensures e == Quiet ==>
      before.Of(quarantine).Some? && before.leaf.None? && dir.entries == before.Rename(quarantine, Public)
    ensures e == ConflictError ==> before.leaf.Some? && dir.entries == before
    ensures e == FileMissing ==> before.Of(quarantine).None? && dir.entries == before
    ensures e == OsError ==>
      || dir.entries == before
      || (before.Of(quarantine).Some? && before.leaf.None? && dir.entries == before.Rename(quarantine, Public))
    ensures Audit(dir.run) == Audit(old(dir.run)).Change(before, dir.entries).(notice := Audit(dir.run).notice)
    ensures e != OsError ==> Audit(dir.run).notice == Audit(old(dir.run)).notice
    ensures Audit(dir.run).created == Audit(old(dir.run)).created
    ensures Audit(dir.run).dropped == Audit(old(dir.run)).dropped
    ensures Grows(old(dir.run), dir.run)
    ensures Alone(old(dir.run), dir.run) ==> before == old(dir.entries) && dir.inodes == old(dir.inodes)
    ensures Smooth(old(dir.run), dir.run) ==>
      e == if before.Of(quarantine).None? then FileMissing else if before.leaf.Some? then ConflictError else Quiet
    ensures e == OsError ==> Faults(old(dir.run)) < Faults(dir.run) && RaisedMoves(old(dir.run)) < RaisedMoves(dir.run)
  {
    var m: Moved;
    m, before := dir.MoveNoReplace(quarantine, Public);
    e := match m
      case MoveOk => Quiet
      case MoveExists => ConflictError
      case MoveMissing => FileMissing
      case MoveFailed => OsError;
  }

  /** Reads the leaf back and insists on its bytes and identity. */
  method Verify(dir: Directory, expected: Bytes, identity: Inode, maxBytes: nat) returns (e: Raised)
    requires dir.Valid()
    modifies dir
    ensures dir.Valid() && dir.token == old(dir.token) && old(dir.inodes) <= dir.inodes
    ensures dir.entries.hidden == old(dir.entries).hidden
    ensures e in {Quiet, OsError, FileMissing, ValidationError, PublishError(Unknown)}
    ensures Audit(dir.run).(verified := None) == Audit(old(dir.run)).(verified := None)
    ensures e == Quiet ==>
      && Audit(dir.run).verified == Some(identity)
      && identity < |dir.inodes| && dir.inodes[identity] == Regular(expected)
    ensures Grows(old(dir.run), dir.run)
    ensures Alone(old(dir.run), dir.run) ==> dir.entries == old(dir.entries) && dir.inodes == old(dir.inodes)
    ensures
      && Smooth(old(dir.run), dir.run) && dir.entries.leaf == Some(identity) && |expected| <= maxBytes
      && identity < |dir.inodes| && dir.inodes[identity] == Regular(expected) ==>
      e == Quiet
    ensures KeepsSwap(old(dir.run), dir.run)
    ensures
      && Alone(old(dir.run), dir.run) && dir.entries.leaf == Some(identity) && identity < |dir.inodes|
      && dir.inodes[identity] == Regular(expected) ==>
      !e.PublishError?
  {
    var r := dir.ReadRegular(Public, maxBytes);
    match r
    case Content(bytes, inode) =>
      e := if bytes != expected || inode != identity then PublishError(Unknown) else Quiet;
    case ReadInvalid => e := ValidationError;
    case ReadMissing => e := FileMissing;
    case ReadFailed => e := OsError;
  }

  function RaisedBy(r: Removed): Raised {
    match r
    case RemoveOk => Quiet
    case RemoveMissing => FileMissing
    case RemoveConflict => ConflictError
    case RemoveFailed => OsError
  }

  /** The quarantine name, while it is in use, holds the quarantined inode. */
  predicate Kept(d: Entries, quarantine: Name, id: Option<Inode>) {
    d.Of(quarantine).Some? ==> d.Of(quarantine) == id
  }

  /** Moves whatever is at the public name to a private one and insists that it is the
      published replacement. */
  method TakeAside(dir: Directory, stageId: Inode, maxBytes: nat) returns (e: Raised, aside: Name)
    requires dir.Valid()
    modifies dir
    ensures dir.Valid() && dir.token == old(dir.token) + 1 && old(dir.inodes) <= dir.inodes
    ensures aside == Private(old(dir.token))
    ensures dir.entries.hidden - {old(dir.token)} == old(dir.entries).hidden
    ensures Audit(dir.run).created == Audit(old(dir.run)).created
    ensures Audit(dir.run).dropped == Audit(old(dir.run)).dropped
    ensures Audit(old(dir.run)).displaced.Some? ==> Audit(dir.run).displaced == Audit(old(dir.run)).displaced
    ensures Grows(old(dir.run), dir.run)
    ensures Alone(old(dir.run), dir.run) ==> dir.inodes == old(dir.inodes)
    ensures
      && Smooth(old(dir.run), dir.run) && old(dir.entries).leaf == Some(stageId)
      && old(dir.inodes)[stageId].Regular? && |old(dir.inodes)[stageId].bytes| <= maxBytes ==>
      e == Quiet && dir.entries == old(dir.entries).Rename(Public, aside)
  {
    aside := dir.FreshName();
    var m, before := dir.MoveNoReplace(Public, aside);
    assert dir.entries.hidden - {aside.token} == old(dir.entries).hidden;
    if m == MoveOk {
      var r := dir.ReadRegular(aside, maxBytes);
      e := match r
        case Content(_, inode) => if inode == stageId then Quiet else PublishError(Unknown)
        case ReadMissing => FileMissing
        case ReadInvalid => ValidationError
        case ReadFailed => OsError;
    } else {
      e := if m.MoveMissing? then FileMissing else if m.MoveExists? then FileExists else OsError;
    }
  }

  /** Restores and verifies the quarantined leaf. */
  method Reinstate(dir: Directory, q: Name, id: Inode, expected: Bytes, maxBytes: nat) returns (e: Raised)
    requires dir.Valid() && Audit(dir.run).displaced.Some?
    requires q.Private? && Kept(dir.entries, q, Some(id))
    modifies dir
    ensures dir.Valid() && dir.token == old(dir.token) && old(dir.inodes) <= dir.inodes
    ensures dir.entries.hidden - {q.token} == old(dir.entries).hidden - {q.token} && Kept(dir.entries, q, Some(id))
    ensures Audit(dir.run).displaced == Audit(old(dir.run)).displaced
    ensures Audit(dir.run).created == Audit(old(dir.run)).created
    ensures Audit(dir.run).dropped == Audit(old(dir.run)).dropped
    ensures e == Quiet ==> Audit(dir.run).placed == Some(Some(id))
    ensures Grows(old(dir.run), dir.run)
    ensures
      && Smooth(old(dir.run), dir.run) && old(dir.entries).leaf.None? && old(dir.entries).Of(q) == Some(id)
      && |expected| <= maxBytes && old(dir.inodes)[id] == Regular(expected) ==>
      e == Quiet && dir.entries.leaf == Some(id)
  {
    ghost var before;
    e, before := Restore(dir, q);
    if e == Quiet {
      e := Verify(dir, expected, id, maxBytes);
    }
  }

  lemma OtherNameKept(before: Entries, after: Entries, q: Name, other: Name)
    requires q.Private? && other.Private? && q != other
    requires after.hidden - {q.token} == before.hidden - {q.token}
    ensures after.Of(other) == before.Of(other)
  {
    assert other.token in before.hidden - {q.token} <==> other.token in before.hidden;
    assert other.token in after.hidden - {q.token} <==> other.token in after.hidden;
  }

  /** Moves the public leaf aside, checks it is the one published, restores and verifies the
      quarantined leaf, and removes the replacement. */
  method RollbackTo(dir: Directory, stageId: Inode, q: Name, id: Inode, expected: Bytes, maxBytes: nat)
    returns (e: Raised)
    requires dir.Valid() && Audit(dir.run).displaced.Some?
    requires q.Private? && q.token < dir.token && Kept(dir.entries, q, Some(id))
    modifies dir
    ensures dir.Valid() && old(dir.token) <= dir.token && old(dir.inodes) <= dir.inodes
    ensures Kept(dir.entries, q, Some(id))
    ensures Audit(dir.run).displaced == Audit(old(dir.run)).displaced
    ensures Audit(dir.run).created == Audit(old(dir.run)).created
    ensures Audit(dir.run).dropped <= Audit(old(dir.run)).dropped + {stageId}
    ensures e == Quiet ==> Audit(dir.run).placed == Some(Some(id))
    ensures Grows(old(dir.run), dir.run)
    ensures
      && Smooth(old(dir.run), dir.run) && old(dir.entries).leaf == Some(stageId)
      && old(dir.inodes)[stageId].Regular? && |old(dir.inodes)[stageId].bytes| <= maxBytes
      && old(dir.entries).Of(q) == Some(id) && |expected| <= maxBytes && old(dir.inodes)[id] == Regular(expected) ==>
      e == Quiet && dir.entries.leaf == Some(id)
  {
    var aside;
    e, aside := TakeAside(dir, stageId, maxBytes);
    if e == Quiet {
      ghost var mid := dir.entries;
      e := Reinstate(dir, q, id, expected, maxBytes);
      OtherNameKept(mid, dir.entries, q, aside);
      if e == Quiet {
        var u, beforeUnlink := dir.UnlinkIfIdentity(aside, stageId, false);
        e := RaisedBy(u);
      }
    }
  }

  /** Undoes a publication: moves the public leaf aside, checks it is the one published,
      restores and verifies the quarantined leaf, and removes the replacement.  Without a
      quarantine it unlinks the replacement. */
  method Rollback(
    dir: Directory, stageId: Inode, quarantine: Option<Name>, quarantineId: Option<Inode>,
    expected: Option<Bytes>, maxBytes: nat)
    returns (e: Raised)
    requires dir.Valid()
    requires Audit(dir.run).displaced.Some?
    requires quarantine.Some? ==>
      && quarantine.value.Private? && quarantine.value.token < dir.token
      && quarantineId.Some? && expected.Some?
      && Kept(dir.entries, quarantine.value, quarantineId)
    modifies dir
    ensures dir.Valid() && old(dir.token) <= dir.token && old(dir.inodes) <= dir.inodes
    ensures quarantine.Some? ==> Kept(dir.entries, quarantine.value, quarantineId)
    ensures Audit(dir.run).displaced == Audit(old(dir.run)).displaced
    ensures Audit(dir.run).created == Audit(old(dir.run)).created
    ensures Audit(dir.run).dropped <= Audit(old(dir.run)).dropped + {stageId}
    ensures quarantine.None? ==> Audit(dir.run).notice == Audit(old(dir.run)).notice
    ensures e == Quiet ==>
      Audit(dir.run).placed == Some(if quarantine.None? then None else quarantineId)
    ensures Grows(old(dir.run), dir.run)
    ensures
      && Smooth(old(dir.run), dir.run) && old(dir.entries).leaf == Some(stageId)
      && old(dir.inodes)[stageId].Regular? && |old(dir.inodes)[stageId].bytes| <= maxBytes
      && (quarantine.Some? ==>
            && old(dir.entries).Of(quarantine.value) == quarantineId && |expected.value| <= maxBytes
            && old(dir.inodes)[quarantineId.value] == Regular(expected.value)) ==>
      e == Quiet && dir.entries.leaf == if quarantine.None? then None else quarantineId
  {
    if quarantine.None? {
      var r, before := dir.UnlinkIfIdentity(Public, stageId, false);
      e := RaisedBy(r);
    } else {
      e := RollbackTo(dir, stageId, quarantine.value, quarantineId.value, expected.value, maxBytes);
    }
  }

  /** Where the prior leaf is, for an operation that has not published: untouched, put
      back, or still under its quarantine name. */
  predicate Recoverable(l: Ledger, d: Entries, p: Progress) {
    match p.quarantine
    case None => true
    case Some(q) =>
      && q.Private?
      && match l.displaced
         case None => l.placed.None? && d.Of(q).None?
         case Some(None) => false
         case Some(Some(prior)) =>
           if d.Of(q).Some? then d.Of(q) == Some(prior) else l.placed == l.displaced
  }

  /** The retained watch, when there is one, is consumed and must still name the leaf. */
  method TakeRetained(dir: Directory, retained: Option<Inode>, canonical: bool) returns (e: Raised)
    requires dir.Valid()
    modifies dir
    ensures dir.Valid() && dir.token == old(dir.token) && old(dir.inodes) <= dir.inodes
    ensures dir.entries.hidden == old(dir.entries).hidden
    ensures e in {Quiet, OsError, ValidationError}
    ensures Audit(dir.run) == Audit(old(dir.run))
    ensures Grows(old(dir.run), dir.run)
    ensures Alone(old(dir.run), dir.run) ==> dir.entries == old(dir.entries) && dir.inodes == old(dir.inodes)
    ensures Smooth(old(dir.run), dir.run) ==> (e == Quiet <==> Retains(dir.entries, retained))
    ensures KeepsSwap(old(dir.run), dir.run)
  {
    if retained.None? { return Quiet; }
    var listed := dir.StatAt(Public);
    if !listed.Found? { return OsError; }
    if listed.inode != retained.value { return ValidationError; }
    if canonical {
      var moved := dir.Falters();
      if moved { return ValidationError; }
    }
    e := Quiet;
  }

  /** Proves the canonical path again and retains the published leaf. */
  method ValidateAndRetain(dir: Directory, stageId: Inode) returns (e: Raised)
    requires dir.Valid()
    modifies dir
    ensures dir.Valid() && dir.token == old(dir.token) && old(dir.inodes) <= dir.inodes
    ensures dir.entries.hidden == old(dir.entries).hidden
    ensures e in {Quiet, OsError, ValidationError, PublishError(Unknown)}
    ensures Audit(dir.run) == Audit(old(dir.run))
    ensures Grows(old(dir.run), dir.run)
    ensures Alone(old(dir.run), dir.run) ==> dir.entries == old(dir.entries) && dir.inodes == old(dir.inodes)
    ensures Smooth(old(dir.run), dir.run) ==> dir.entries.leaf == Some(stageId) ==> e == Quiet
    ensures KeepsSwap(old(dir.run), dir.run)
    ensures Alone(old(dir.run), dir.run) && dir.entries.leaf == Some(stageId) ==> !e.PublishError?
  {
    var moved := dir.Falters();
    if moved { return ValidationError; }
    var held := dir.StatAt(Public);
    if !held.Found? { return OsError; }
    if held.inode != stageId { return PublishError(Unknown); }
    moved := dir.Falters();
    if moved { return ValidationError; }
    var failed := dir.Falters();
    e := if failed then OsError else Quiet;
  }

  /** What the first change of the public name found there is under this private name. */
  predicate ShelteredAt(l: Ledger, d: Entries, name: Name) {
    name.Private? && d.Of(name).Some? && l.displaced == Some(d.Of(name))
  }

  /** Moves the current leaf to a quarantine name. */
  method SetAside(dir: Directory) returns (q: Name, m: Moved)
    requires dir.Valid() && Audit(dir.run).(created := {}) == BLANK
    modifies dir
    ensures dir.Valid() && old(dir.inodes) <= dir.inodes
    ensures q == Private(old(dir.token)) && dir.token == old(dir.token) + 1
    ensures Audit(dir.run).created == Audit(old(dir.run)).created && Audit(dir.run).notice.Told?
    ensures dir.entries.hidden - {q.token} == old(dir.entries).hidden
    ensures Audit(dir.run).dropped == {}
    ensures m == MoveOk ==>
      && dir.entries.Of(q).Some? && Audit(dir.run).displaced == Some(dir.entries.Of(q))
      && Audit(dir.run).placed == Some(None)
    ensures m != MoveOk ==>
      || (Audit(dir.run).(created := {}) == BLANK && dir.entries.Of(q).None?)
      || ShelteredAt(Audit(dir.run), dir.entries, q)
    ensures m == MoveMissing ==> Audit(dir.run).NetUnchanged()
    ensures Grows(old(dir.run), dir.run)
    ensures Alone(old(dir.run), dir.run) ==> dir.inodes == old(dir.inodes)
    ensures Smooth(old(dir.run), dir.run) ==>
      if old(dir.entries).leaf.None? then m == MoveMissing && dir.entries == old(dir.entries)
      else m == MoveOk && dir.entries == old(dir.entries).Rename(Public, q)
    ensures m != MoveExists
    ensures m == MoveFailed ==>
      Faults(old(dir.run)) < Faults(dir.run) && RaisedMoves(old(dir.run)) < RaisedMoves(dir.run)
    ensures Alone(old(dir.run), dir.run) && m == MoveOk ==>
      old(dir.entries).leaf.Some? && dir.entries == old(dir.entries).Rename(Public, q)
    ensures Alone(old(dir.run), dir.run) && m == MoveMissing ==>
      dir.entries == old(dir.entries) && old(dir.entries).leaf.None?
    ensures Alone(old(dir.run), dir.run) && m == MoveFailed ==>
      || dir.entries == old(dir.entries)
      || (old(dir.entries).leaf.Some? && dir.entries == old(dir.entries).Rename(Public, q))
  {
    q := dir.FreshName();
    ghost var before;
    m, before := dir.MoveNoReplace(Public, q);
    assert dir.entries.hidden - {q.token} == old(dir.entries).hidden;
  }

  /** Moves an unexpected leaf back to the public name. */
  method SendBack(dir: Directory, p0: Progress) returns (e: Raised, p: Progress)
    requires dir.Valid() && p0.quarantine.Some? && p0.quarantine.value.Private? && !p0.published
    requires dir.entries.Of(p0.quarantine.value).Some?
    requires Audit(dir.run).displaced == Some(dir.entries.Of(p0.quarantine.value))
    requires Audit(dir.run).placed == Some(None) && !Slipped(Audit(dir.run))
    modifies dir
    ensures dir.Valid() && dir.token == old(dir.token) && old(dir.inodes) <= dir.inodes
    ensures Audit(dir.run).created == Audit(old(dir.run)).created
    ensures Audit(dir.run).dropped == Audit(old(dir.run)).dropped
    ensures p == p0 || (p == p0.(quarantine := None) && Audit(dir.run).NetUnchanged())
    ensures Recoverable(Audit(dir.run), dir.entries, p)
    ensures e in {OsError, FileMissing, ConflictError}
    ensures e == ConflictError ==> LeftInConflict(Audit(dir.run), p.stageId)
    ensures
      var q := p0.quarantine.value.token;
      && dir.entries.hidden - {q} == old(dir.entries).hidden - {q}
      && (p.quarantine.None? ==> q !in dir.entries.hidden)
    ensures Grows(old(dir.run), dir.run)
    ensures Alone(old(dir.run), dir.run) ==> dir.inodes == old(dir.inodes)
    ensures Smooth(old(dir.run), dir.run) && old(dir.entries).leaf.None? ==>
      e == ConflictError && p.quarantine.None? && dir.entries == old(dir.entries).Rename(p0.quarantine.value, Public)
    ensures Alone(old(dir.run), dir.run) && old(dir.entries).leaf.None? ==>
      var q, held := p0.quarantine.value, old(dir.entries).Of(p0.quarantine.value);
      && (e == ConflictError ==> dir.entries.leaf == held && p.quarantine.None?)
      && (e != ConflictError ==>
            Faults(old(dir.run)) < Faults(dir.run) && RaisedMoves(old(dir.run)) < RaisedMoves(dir.run))
      && (if dir.entries.Of(q).Some? then dir.entries.leaf.None? && dir.entries.Of(q) == held
          else dir.entries.leaf == held)
  {
    p := p0;
    ghost var before;
    e, before := Restore(dir, p.quarantine.value);
    if e == Quiet {
      p, e := p.(quarantine := None), ConflictError;
    }
  }

  /** Checks the quarantined leaf; anything but the expected one is moved back. */
  method Examine(
    dir: Directory, p0: Progress, expected: Bytes, maxBytes: nat, retained: Option<Inode>)
    returns (e: Raised, p: Progress)
    requires dir.Valid() && p0.quarantine.Some? && p0.quarantine.value.Private? && !p0.published
    requires dir.entries.Of(p0.quarantine.value).Some?
    requires Audit(dir.run).displaced == Some(dir.entries.Of(p0.quarantine.value))
    requires Audit(dir.run).placed == Some(None) && Audit(dir.run).notice.Told?
    modifies dir
    ensures dir.Valid() && dir.token == old(dir.token) && old(dir.inodes) <= dir.inodes
    ensures Audit(dir.run).created == Audit(old(dir.run)).created
    ensures Audit(dir.run).dropped == Audit(old(dir.run)).dropped
    ensures p.(quarantine := None, quarantineId := None) == p0.(quarantine := None, quarantineId := None)
    ensures p.quarantine == p0.quarantine || (p.quarantine.None? && Audit(dir.run).NetUnchanged())
    ensures Recoverable(Audit(dir.run), dir.entries, p)
    ensures e in {Quiet, OsError, FileMissing, ConflictError}
    ensures e == ConflictError ==> LeftInConflict(Audit(dir.run), p.stageId)
    ensures e == Quiet ==>
      && p.quarantine == p0.quarantine && p.quarantineId.Some?
      && Audit(dir.run) == Audit(old(dir.run))
      && dir.entries.hidden == old(dir.entries).hidden && dir.entries.Of(p.quarantine.value) == p.quarantineId
      && dir.inodes[p.quarantineId.value] == Regular(expected)
      && (retained.Some? ==> p.quarantineId == retained)
    ensures
      var q := p0.quarantine.value.token;
      && dir.entries.hidden - {q} == old(dir.entries).hidden - {q}
      && (p.quarantine.None? ==> q !in dir.entries.hidden)
    ensures Grows(old(dir.run), dir.run)
    ensures Alone(old(dir.run), dir.run) ==> dir.inodes == old(dir.inodes)
    ensures Alone(old(dir.run), dir.run) && old(dir.entries).leaf.None? ==>
      var q, held := p0.quarantine.value, old(dir.entries).Of(p0.quarantine.value);
      && (e == Quiet ==> dir.entries == old(dir.entries))
      && (e == ConflictError ==> dir.entries.leaf == held && p.quarantine.None?)
      && (e != Quiet && e != ConflictError ==>
            && Faults(old(dir.run)) < Faults(dir.run) && RaisedMoves(old(dir.run)) < RaisedMoves(dir.run)
            && (if dir.entries.Of(q).Some? then dir.entries.leaf.None? && dir.entries.Of(q) == held
                else dir.entries.leaf == held))
    ensures Smooth(old(dir.run), dir.run) && old(dir.entries).leaf.None? && |expected| <= maxBytes ==>
      var held := old(dir.entries).Of(p0.quarantine.value);
      if old(dir.inodes)[held.value] == Regular(expected) && (retained.Some? ==> held == retained) then e == Quiet
      else e == ConflictError && dir.entries == old(dir.entries).Rename(p0.quarantine.value, Public)
  {
    p := p0;
    var r := dir.ReadRegular(p.quarantine.value, maxBytes);
    if r.Content? {
      p := p.(quarantineId := Some(r.inode));
    }
    if !r.Content? || r.bytes != expected || (retained.Some? && r.inode != retained.value) {
      e, p := SendBack(dir, p);
    } else {
      e := Quiet;
    }
  }

  /** Moves the current leaf to a quarantine name and checks it there; anything but the
      expected leaf is moved back. */
  method Quarantine(
    dir: Directory, p0: Progress, expected: Bytes, maxBytes: nat, retained: Option<Inode>)
    returns (e: Raised, p: Progress)
    requires dir.Valid() && p0.quarantine.None? && p0.quarantineId.None? && !p0.published
    requires p0.stage.Some? && p0.stage.value.Private? && p0.stage.value.token < dir.token
    requires Audit(dir.run).(created := {}) == BLANK
    requires Intrusions(dir.run) == 0 ==> dir.entries.leaf == Origin(dir.run).leaf
    modifies dir
    ensures dir.Valid() && old(dir.token) <= dir.token && old(dir.inodes) <= dir.inodes
    ensures Audit(dir.run).created == Audit(old(dir.run)).created
    ensures p.(quarantine := None, quarantineId := None) == p0
    ensures Audit(dir.run).dropped == {}
    ensures Recoverable(Audit(dir.run), dir.entries, p)
    ensures p.quarantine.None? ==> Audit(dir.run).NetUnchanged()
    ensures p.quarantine.Some? ==>
      && p.quarantine == Some(Private(old(dir.token))) && p.quarantine.value.token < dir.token
    ensures p.quarantine.Some? ==> dir.entries.hidden - {old(dir.token)} == old(dir.entries).hidden
    ensures p0.stage.value.token in old(dir.entries).hidden ==>
      p0.stage.value.token in dir.entries.hidden
      && dir.entries.hidden[p0.stage.value.token] == old(dir.entries).hidden[p0.stage.value.token]
    ensures e in {Quiet, OsError, FileExists, FileMissing, ConflictError}
    ensures e == ConflictError ==> LeftInConflict(Audit(dir.run), p.stageId)
    ensures e == Quiet ==>
      && p.quarantine.Some? && p.quarantineId.Some?
      && Audit(dir.run).displaced == Some(p.quarantineId)
      && Audit(dir.run).placed == Some(None) && Audit(dir.run).notice.Told?
      && dir.entries.Of(p.quarantine.value) == p.quarantineId
      && dir.inodes[p.quarantineId.value] == Regular(expected)
      && (retained.Some? ==> p.quarantineId == retained)
    ensures Grows(old(dir.run), dir.run)
    ensures Alone(old(dir.run), dir.run) ==> dir.inodes == old(dir.inodes)
    ensures Smooth(old(dir.run), dir.run) && Retains(old(dir.entries), retained) && |expected| <= maxBytes ==>
      (e == Quiet <==> Holds(old(dir.entries), dir.inodes, Some(expected)))
    ensures Smooth(old(dir.run), dir.run) && e == Quiet ==> dir.entries.leaf.None?
    ensures Smooth(old(dir.run), dir.run) && e != Quiet && Retains(old(dir.entries), retained) ==>
      e == ConflictError && dir.entries == old(dir.entries)
    ensures e != Quiet && OneFault(dir.run) ==> LoneUnpublished(dir.run, p, e)
    ensures e == Quiet && Intrusions(dir.run) == 0 ==>
      dir.entries.leaf.None? && LoneAside(dir.run, dir.inodes, p.quarantine.value, p.quarantineId, expected)
  {
    var q, m := SetAside(dir);
    p := p0.(quarantine := Some(q));
    if m != MoveOk {
      e := match m case MoveMissing => ConflictError case MoveExists => FileExists case _ => OsError;
      return;
    }
    e, p := Examine(dir, p, expected, maxBytes, retained);
  }

  /** The ledger just before the publication move. */
  predicate ReadyToPublish(l: Ledger, d: Entries, p: Progress, expected: Option<Bytes>) {
    && l.dropped == {} && !p.published && l.created == {p.stageId} && l.notice.Told?
    && p.stage.Some? && p.stage.value.Private? && d.Of(p.stage.value) == Some(p.stageId)
    && match expected
       case None => p.quarantine.None? && l.(created := {}) == BLANK
       case Some(_) =>
         && p.quarantine.Some? && p.quarantine.value.Private? && p.quarantine != p.stage
         && p.quarantineId.Some? && d.Of(p.quarantine.value) == p.quarantineId
         && l.displaced == Some(p.quarantineId) && l.placed == Some(None)
  }

  /** Just before the publication move, with nothing foreign: the name is as the caller
      expects it, or empty with the expected leaf aside. */
  predicate LoneReady(run: Run, inodes: seq<Node>, p: Progress, expected: Option<Bytes>) {
    match expected
    case None => run.now.leaf == Origin(run).leaf
    case Some(bytes) =>
      run.now.leaf.None? && p.quarantine.Some? && LoneAside(run, inodes, p.quarantine.value, p.quarantineId, bytes)
  }

  /** A publication that slipped is handled as a plain system error over a published stage. */
  predicate SlippedStage(l: Ledger, p: Progress, e: Raised) {
    e == OsError && !p.published && l.displaced == Some(None) && l.placed == Some(Some(p.stageId))
  }

  /** The ledger once the publication is known to have taken effect. */
  predicate Published(l: Ledger, d: Entries, p: Progress, expected: Option<Bytes>) {
    && p.published && p.stage.None? && p.stageId in l.created
    && match expected
       case None => p.quarantine.None? && l.displaced == Some(None) && l.notice.Told?
       case Some(_) =>
         && p.quarantine.Some? && p.quarantine.value.Private?
         && p.quarantineId.Some? && Kept(d, p.quarantine.value, p.quarantineId)
         && l.displaced == Some(p.quarantineId)
  }

  /** The two listings made after a publication move raised; the second is needed only when
      the first shows a leaf. */
  method Inspect(dir: Directory, stage: Name) returns (atName: Stat, atStage: Stat)
    requires dir.Valid() && stage.Private?
    requires Audit(dir.run).notice.Untold? ==> Audit(dir.run).notice.source == stage
    modifies dir
    ensures dir.Valid() && dir.token == old(dir.token) && old(dir.inodes) <= dir.inodes
    ensures dir.entries.hidden == old(dir.entries).hidden
    ensures Audit(dir.run) == Audit(old(dir.run)).(notice := Audit(dir.run).notice)
    ensures Audit(old(dir.run)).notice.Told? ==> Audit(dir.run).notice.Told?
    ensures Audit(old(dir.run)).notice.Untold? ==>
      Audit(dir.run).notice == if Confirms(atName, atStage, Audit(old(dir.run)).notice.inode) then Told else Missed
    ensures Truthful(dir.entries, stage, atStage)
    ensures Grows(old(dir.run), dir.run)
    ensures Alone(old(dir.run), dir.run) ==> dir.inodes == old(dir.inodes) && dir.entries == old(dir.entries)
    ensures Smooth(old(dir.run), dir.run) ==> Truthful(dir.entries, Public, atName)
    ensures Smooth(old(dir.run), dir.run) && old(dir.entries).Of(stage).None? && old(dir.entries).leaf.Some? ==>
      atName == Found(old(dir.entries).leaf.value) && atStage == Absent
  {
    atName := dir.ListAt(Public);
    atStage := StatFailed;
    if atName.Found? {
      atStage := dir.ListAt(stage);
    }
  }

  /** Finds out whether a publication that raised took effect. */
  method FindOut(dir: Directory, p0: Progress) returns (p: Progress)
    requires dir.Valid() && !p0.published && p0.stage.Some? && p0.stage.value.Private?
    requires
      var l := Audit(dir.run);
      || (l.notice.Told? && dir.entries.Of(p0.stage.value).Some?)
      || l.notice == Untold(p0.stage.value, p0.stageId)
    modifies dir
    ensures dir.Valid() && dir.token == old(dir.token) && old(dir.inodes) <= dir.inodes
    ensures dir.entries.hidden == old(dir.entries).hidden
    ensures p == if p.published then p0.(stage := None, published := true) else p0
    ensures
      var before := Audit(old(dir.run));
      Audit(dir.run) == before.(notice := if before.notice.Told? || p.published then Told else Missed)
    ensures p.published ==> Audit(old(dir.run)).notice.Untold?
    ensures Grows(old(dir.run), dir.run)
    ensures Alone(old(dir.run), dir.run) ==> dir.inodes == old(dir.inodes) && dir.entries == old(dir.entries)
    ensures
      && Smooth(old(dir.run), dir.run) && old(dir.entries).Of(p0.stage.value).None?
      && old(dir.entries).leaf == Some(p0.stageId) ==>
      p.published
  {
    p := p0;
    var atName, atStage := Inspect(dir, p.stage.value);
    if Confirms(atName, atStage, p.stageId) {
      p := p.(stage := None, published := true);
    }
  }

  /** Tries the publishing move, and finds out what it did when it raises. */
  method TryPublish(dir: Directory, p0: Progress, expected: Option<Bytes>) returns (e: Raised, p: Progress)
    requires dir.Valid() && ReadyToPublish(Audit(dir.run), dir.entries, p0, expected)
    modifies dir
    ensures dir.Valid() && dir.token == old(dir.token) && old(dir.inodes) <= dir.inodes
    ensures p == if p.published then p0.(stage := None, published := true) else p0
    ensures Audit(dir.run).dropped == {} && Audit(dir.run).created == {p0.stageId}
    ensures dir.entries.hidden - {p0.stage.value.token} == old(dir.entries).hidden - {p0.stage.value.token}
    ensures p.published ==>
      && Published(Audit(dir.run), dir.entries, p, expected)
      && Audit(dir.run).placed == Some(Some(p.stageId)) && Audit(dir.run).notice.Told?
      && dir.entries.hidden == old(dir.entries).hidden - {p0.stage.value.token}
    ensures !p.published && Slipped(Audit(dir.run)) ==>
      && e == OsError && Audit(dir.run).placed == Some(Some(p.stageId))
      && (expected.None? ==> Audit(dir.run).displaced == Some(None))
    ensures !p.published && !Slipped(Audit(dir.run)) ==> Audit(dir.run) == Audit(old(dir.run))
    ensures expected.Some? ==> Audit(dir.run).displaced == Audit(old(dir.run)).displaced
    ensures e in {Quiet, OsError, FileMissing, FileExists}
    ensures e == Quiet ==> p.published
    ensures e == FileExists ==> !p.published && !Slipped(Audit(dir.run))
    ensures Grows(old(dir.run), dir.run)
    ensures Alone(old(dir.run), dir.run) ==> dir.inodes == old(dir.inodes)
    ensures Smooth(old(dir.run), dir.run) ==>
      if old(dir.entries).leaf.None?
      then e == Quiet && dir.entries == old(dir.entries).Rename(p0.stage.value, Public)
      else e == FileExists && dir.entries == old(dir.entries)
    ensures e != Quiet && e != FileExists ==> Faults(old(dir.run)) < Faults(dir.run)
    ensures Alone(old(dir.run), dir.run) && Faults(dir.run) <= Faults(old(dir.run)) + 1 ==>
      && (p.published ==> old(dir.entries).leaf.None? && dir.entries == old(dir.entries).Rename(p0.stage.value, Public))
      && (!p.published ==> dir.entries == old(dir.entries))
      && (e == FileExists ==> old(dir.entries).leaf.Some?)
      && (e != Quiet && e != FileExists ==> old(dir.entries).leaf.None? || !p.published)
  {
    p := p0;
    var stage := p0.stage.value;
    var m, before := dir.MoveNoReplace(stage, Public);
    if m == MoveOk {
      p := p.(stage := None, published := true);
      return Quiet, p;
    }
    e := match m case MoveExists => FileExists case MoveMissing => FileMissing case _ => OsError;
    p := FindOut(dir, p);
  }

  /** Publishes the stage with the no-replace move.  When the move raises, two listings
      decide whether it took effect; if it did not, the quarantine is restored. */
  method PublishStage(dir: Directory, p0: Progress, expected: Option<Bytes>, ghost replacement: Bytes)
    returns (e: Raised, p: Progress)
    requires dir.Valid() && ReadyToPublish(Audit(dir.run), dir.entries, p0, expected)
    requires dir.inodes[p0.stageId] == Regular(replacement)
    requires Intrusions(dir.run) == 0 ==> LoneReady(dir.run, dir.inodes, p0, expected)
    modifies dir
    ensures dir.Valid() && dir.token == old(dir.token) && old(dir.inodes) <= dir.inodes
    ensures p.stageId == p0.stageId && p.quarantineId == p0.quarantineId
    ensures p.stage.None? || p.stage == p0.stage
    ensures p.quarantine.None? || p.quarantine == p0.quarantine
    ensures Audit(dir.run).dropped == {} && Audit(dir.run).created == {p0.stageId}
    ensures p.published ==>
      && Published(Audit(dir.run), dir.entries, p, expected)
      && Audit(dir.run).placed == Some(Some(p.stageId))
    ensures !p.published ==> e != Quiet && Recoverable(Audit(dir.run), dir.entries, p)
    ensures !p.published && p.quarantine.None? && expected.Some? ==> Audit(dir.run).NetUnchanged()
    ensures !p.published ==> p.stage == p0.stage
    ensures !p.published && expected.None? ==> (Audit(dir.run).NetUnchanged() <==> !Slipped(Audit(dir.run)))
    ensures expected.None? && Slipped(Audit(dir.run)) ==> SlippedStage(Audit(dir.run), p, e)
    ensures p.published ==> dir.entries.hidden == old(dir.entries).hidden - {p0.stage.value.token}
    ensures e in {Quiet, OsError, FileMissing, ConflictError}
    ensures e == Quiet ==> p.published
    ensures e == ConflictError ==> !p.published && (expected.None? ==> Audit(dir.run).NetUnchanged())
    ensures e == ConflictError ==> LeftInConflict(Audit(dir.run), p.stageId)
    ensures Grows(old(dir.run), dir.run)
    ensures Alone(old(dir.run), dir.run) ==> dir.inodes == old(dir.inodes)
    ensures Smooth(old(dir.run), dir.run) && old(dir.entries).leaf.None? ==>
      e == Quiet && dir.entries == old(dir.entries).Rename(p0.stage.value, Public)
    ensures Smooth(old(dir.run), dir.run) && old(dir.entries).leaf.Some? && expected.None? ==>
      e == ConflictError && p == p0 && dir.entries == old(dir.entries)
    ensures OneFault(dir.run) ==>
      if e == Quiet then LonePublished(dir.run, dir.inodes, p, expected, replacement)
      else LoneAttempt(dir.run, dir.inodes, p, e, expected, replacement)
  {
    e, p := TryPublish(dir, p0, expected);
    if e == Quiet { return; }
    if p.quarantine.Some? && !p.published {
      assert p.quarantine.value.token in old(dir.entries).hidden - {p0.stage.value.token};
      e, p := GiveUp(dir, p, expected, e);
      if p.quarantine.Some? { return; }
    }
    e := if e == FileExists then ConflictError else e;
  }

  /** Restores the quarantine after a failed publication. */
  method GiveUp(dir: Directory, p0: Progress, expected: Option<Bytes>, e0: Raised) returns (e: Raised, p: Progress)
    requires dir.Valid() && expected.Some? && !p0.published && e0 in {OsError, FileMissing, FileExists}
    requires p0.quarantine.Some? && p0.quarantine.value.Private? && p0.quarantineId.Some?
    requires dir.entries.Of(p0.quarantine.value) == p0.quarantineId && Audit(dir.run).displaced == Some(p0.quarantineId)
    modifies dir
    ensures dir.Valid() && dir.token == old(dir.token) && old(dir.inodes) <= dir.inodes
    ensures Audit(dir.run).created == Audit(old(dir.run)).created
    ensures Audit(dir.run).dropped == Audit(old(dir.run)).dropped
    ensures p == p0 || p == p0.(quarantine := None)
    ensures Recoverable(Audit(dir.run), dir.entries, p)
    ensures if p.quarantine.None? then Audit(dir.run).NetUnchanged() && e == e0
            else e in {OsError, FileMissing, ConflictError}
    ensures p.quarantine.None? || e == ConflictError ==> Audit(dir.run).notice == Audit(old(dir.run)).notice
    ensures p.quarantine.Some? && e == ConflictError ==> Audit(dir.run).placed == Audit(old(dir.run)).placed
    ensures Grows(old(dir.run), dir.run)
    ensures Alone(old(dir.run), dir.run) ==> dir.inodes == old(dir.inodes)
    ensures Smooth(old(dir.run), dir.run) && old(dir.entries).leaf.None? ==>
      p.quarantine.None? && e == e0 && dir.entries.leaf == p0.quarantineId
  {
    p := p0;
    ghost var before;
    e, before := Restore(dir, p.quarantine.value);
    if e == Quiet {
      p, e := p.(quarantine := None), e0;
    }
  }

  /** The canonical path is lost after publication: rolls back. */
  method LosePath(
    dir: Directory, p0: Progress, expected: Option<Bytes>, ghost replacement: Bytes, maxBytes: nat)
    returns (e: Raised, p: Progress)
    requires dir.Valid() && Published(Audit(dir.run), dir.entries, p0, expected)
    requires p0.quarantine.Some? ==> p0.quarantine.value.token < dir.token
    requires Audit(dir.run).dropped == {} && Audit(dir.run).created == {p0.stageId}
    requires |replacement| <= maxBytes && (expected.Some? ==> |expected.value| <= maxBytes)
    modifies dir
    ensures dir.Valid() && old(dir.token) <= dir.token && old(dir.inodes) <= dir.inodes
    ensures Audit(dir.run).created == {p0.stageId} && Audit(dir.run).dropped <= {p0.stageId}
    ensures expected.None? ==> !Slipped(Audit(dir.run))
    ensures if p.published then e == PublishError(Unknown) && p == p0 &&
      Published(Audit(dir.run), dir.entries, p, expected)
            else
              && e == PublishError(Unpublished) && p == p0.(published := false, quarantine := None)
              && Audit(dir.run).NetUnchanged()
    ensures Grows(old(dir.run), dir.run)
    ensures
      && Smooth(old(dir.run), dir.run)
      && LonePublished(old(dir.run), old(dir.inodes), p0, expected, replacement) ==>
      e == PublishError(Unpublished) && dir.entries.leaf == Origin(dir.run).leaf
  {
    p := p0;
    var back := Rollback(dir, p.stageId, p.quarantine, p.quarantineId, expected, maxBytes);
    if back != Quiet { return PublishError(Unknown), p; }
    p := p.(published := false, quarantine := None);
    e := PublishError(Unpublished);
  }

  /** Proves the canonical path and retains the leaf; a lost path is rolled back. */
  method Secure(dir: Directory, p0: Progress, expected: Option<Bytes>, ghost replacement: Bytes, maxBytes: nat)
    returns (e: Raised, p: Progress)
    requires dir.Valid() && Published(Audit(dir.run), dir.entries, p0, expected)
    requires p0.quarantine.Some? ==> p0.quarantine.value.token < dir.token
    requires Audit(dir.run).dropped == {} && Audit(dir.run).created == {p0.stageId}
    requires |replacement| <= maxBytes && (expected.Some? ==> |expected.value| <= maxBytes)
    requires OneFault(dir.run) ==> LonePublished(dir.run, dir.inodes, p0, expected, replacement)
    modifies dir
    ensures dir.Valid() && old(dir.token) <= dir.token && old(dir.inodes) <= dir.inodes
    ensures p.stageId == p0.stageId && p.stage.None? && Audit(dir.run).created == {p.stageId}
    ensures p.quarantine.None? || p.quarantine == p0.quarantine
    ensures expected.None? ==> !Slipped(Audit(dir.run))
    ensures e in {Quiet, OsError, PublishError(Unknown), PublishError(Unpublished)}
    ensures e == Quiet ==>
      p == p0 && Audit(dir.run) == Audit(old(dir.run)) && dir.entries.hidden == old(dir.entries).hidden
    ensures e != Quiet ==>
      && Audit(dir.run).dropped <= {p.stageId}
      && if p.published then p == p0 && e != PublishError(Unpublished) &&
           Published(Audit(dir.run), dir.entries, p, expected)
         else e == PublishError(Unpublished) && p.quarantine.None? && Audit(dir.run).NetUnchanged()
    ensures Grows(old(dir.run), dir.run)
    ensures e == Quiet && Alone(old(dir.run), dir.run) ==>
      dir.entries == old(dir.entries) && dir.inodes == old(dir.inodes)
    ensures Smooth(old(dir.run), dir.run) && old(dir.entries).leaf == Some(p0.stageId) ==> e == Quiet
    ensures OneFault(dir.run) && e != Quiet ==> LoneAttempt(dir.run, dir.inodes, p, e, expected, replacement)
  {
    p := p0;
    e := ValidateAndRetain(dir, p.stageId);
    if e == ValidationError {
      e, p := LosePath(dir, p, expected, replacement, maxBytes);
    }
  }

  /** Unlinks the quarantined leaf, if there is one. */
  method Discard(dir: Directory, p0: Progress) returns (e: Raised, p: Progress)
    requires dir.Valid() && (p0.quarantine.Some? ==> p0.quarantine.value.Private? && p0.quarantineId.Some?)
    modifies dir
    ensures dir.Valid() && dir.token == old(dir.token) && old(dir.inodes) <= dir.inodes
    ensures Audit(dir.run).(dropped := {}) == Audit(old(dir.run)).(dropped := {})
    ensures Audit(dir.run).dropped <=
      Audit(old(dir.run)).dropped + if p0.quarantine.Some? then {p0.quarantineId.value} else {}
    ensures e == Quiet || e == PublishError(Committed)
    ensures e == Quiet ==>
      && p == p0.(quarantine := None)
      && dir.entries.hidden == if p0.quarantine.None? then old(dir.entries).hidden
                               else old(dir.entries).hidden - {p0.quarantine.value.token}
    ensures e != Quiet ==> p == p0
    ensures Grows(old(dir.run), dir.run)
    ensures Alone(old(dir.run), dir.run) ==> dir.entries.leaf == old(dir.entries).leaf && dir.inodes == old(dir.inodes)
    ensures
      && Smooth(old(dir.run), dir.run)
      && (p0.quarantine.Some? ==> old(dir.entries).Of(p0.quarantine.value) == p0.quarantineId) ==>
      e == Quiet
  {
    e, p := Quiet, p0;
    if p.quarantine.Some? {
      var u, before := dir.UnlinkIfIdentity(p.quarantine.value, p.quarantineId.value, false);
      if u == RemoveOk {
        p := p.(quarantine := None);
      } else {
        e := PublishError(Committed);
      }
    }
  }

  /** After publication: verifies the leaf, proves the canonical path and retains the
      leaf, then discards the quarantine.  A lost canonical path is rolled back here. */
  method Settle(
    dir: Directory, p0: Progress, expected: Option<Bytes>, replacement: Bytes,
    maxBytes: nat, retained: Option<Inode>, canonical: bool)
    returns (e: Raised, p: Progress)
    requires dir.Valid() && Published(Audit(dir.run), dir.entries, p0, expected)
    requires p0.quarantine.Some? ==> p0.quarantine.value.token < dir.token
    requires Audit(dir.run).placed == Some(Some(p0.stageId)) && Audit(dir.run).dropped == {}
    requires Audit(dir.run).created == {p0.stageId}
    requires expected.Some? ==>
      && p0.quarantineId.value < |dir.inodes| && dir.inodes[p0.quarantineId.value] == Regular(expected.value)
      && (retained.Some? ==> p0.quarantineId == retained)
    requires |replacement| <= maxBytes && (expected.Some? ==> |expected.value| <= maxBytes)
    requires OneFault(dir.run) ==> LonePublished(dir.run, dir.inodes, p0, expected, replacement)
    modifies dir
    ensures dir.Valid() && old(dir.token) <= dir.token && old(dir.inodes) <= dir.inodes
    ensures p.stageId == p0.stageId && p.stage.None? && Audit(dir.run).created == {p.stageId}
    ensures p.quarantine.None? || p.quarantine == p0.quarantine
    ensures expected.None? ==> !Slipped(Audit(dir.run))
    ensures e == PublishError(Unpublished) ==> !p.published
    ensures e in {Quiet, OsError, FileMissing, ValidationError, PublishError(Unknown), PublishError(Unpublished),
      PublishError(Committed)}
    ensures e == Quiet || e == PublishError(Committed) ==>
      Accomplished(Audit(dir.run), dir.inodes, p.stageId, expected, replacement, retained)
    ensures e == Quiet ==> p.quarantine.None? && p.published
    ensures e == Quiet ==>
      dir.entries.hidden == if p0.quarantine.None? then old(dir.entries).hidden
                            else old(dir.entries).hidden - {p0.quarantine.value.token}
    ensures e != Quiet && e != PublishError(Committed) ==>
      && Audit(dir.run).dropped <= {p.stageId}
      && if p.published then p == p0 && Published(Audit(dir.run), dir.entries, p, expected)
         else e == PublishError(Unpublished) && p.quarantine.None? && Audit(dir.run).NetUnchanged()
    ensures Grows(old(dir.run), dir.run)
    ensures
      && Smooth(old(dir.run), dir.run)
      && old(dir.entries).leaf == Some(p0.stageId) && p0.stageId < |old(dir.inodes)|
      && old(dir.inodes)[p0.stageId] == Regular(replacement) && |replacement| <= maxBytes
      && (p0.quarantine.Some? ==> old(dir.entries).Of(p0.quarantine.value) == p0.quarantineId) ==>
      e == Quiet && dir.entries.leaf == Some(p0.stageId) && dir.inodes == old(dir.inodes)
    ensures OneFault(dir.run) && e != Quiet && e != PublishError(Committed) ==>
      LoneAttempt(dir.run, dir.inodes, p, e, expected, replacement)
  {
    p := p0;
    e := Verify(dir, replacement, p.stageId, maxBytes);
    if e == Quiet && canonical {
      e, p := Secure(dir, p, expected, replacement, maxBytes);
    }
    if e == Quiet {
      e, p := Discard(dir, p);
    }
  }

  /** Where an interrupted attempt stands, as the exception handler will find it. */
  ghost predicate Interrupted(l: Ledger, d: Entries, p: Progress, e: Raised, expected: Option<Bytes>) {
    && l.dropped <= l.created <= {p.stageId}
    && (p.stage.Some? || p.published ==> p.stageId in l.created)
    && (p.stage.Some? ==> p.stage.value.Private? && p.stage != p.quarantine)
    && (e == ConflictError ==>
          !p.published && (expected.None? ==> l.NetUnchanged()) && LeftInConflict(l, p.stageId))
    && (e == PublishError(Unpublished) ==> !p.published)
    && (expected.None? && Slipped(l) ==> SlippedStage(l, p, e))
    && if p.published then Published(l, d, p, expected)
       else
         && Recoverable(l, d, p)
         && (expected.Some? && p.quarantine.None? ==> l.NetUnchanged())
         && (expected.None? ==> p.quarantine.None? && (l.NetUnchanged() <==> !Slipped(l)))
         && (e == PublishError(Unpublished) ==> p.quarantine.None? && l.NetUnchanged())
  }

  /** In an undisturbed run: publication exactly when the leaf was as expected, and
      otherwise the directory as it was but for the stage. */
  ghost predicate CalmAttempt(
    before: Entries, inodes: seq<Node>, after: Entries, e: Raised, p: Progress,
    expected: Option<Bytes>, retained: Option<Inode>)
  {
    if Holds(before, inodes, expected) && Retains(before, retained)
    then e == Quiet && after == before.(leaf := Some(p.stageId))
    else CalmRefusal(before, after, e, p)
  }

  ghost predicate CalmRefusal(before: Entries, after: Entries, e: Raised, p: Progress) {
    && e in {ConflictError, OsError, ValidationError} && !p.published
    && (e == ConflictError || p.quarantine.None?)
    && match p.stage
       case None => after == before
       case Some(s) => s.Private? && before.Of(s).None? && after == before.Put(s, p.stageId)
  }

  /** From a written stage to a settled publication. */
  method Advance(
    dir: Directory, p0: Progress, expected: Option<Bytes>, replacement: Bytes,
    maxBytes: nat, retained: Option<Inode>, canonical: bool)
    returns (e: Raised, p: Progress)
    requires dir.Valid() && Audit(dir.run) == BLANK.(created := {p0.stageId})
    requires |replacement| <= maxBytes && (expected.Some? ==> |expected.value| <= maxBytes)
    requires p0.quarantine.None? && p0.quarantineId.None? && !p0.published
    requires p0.stage.Some? && p0.stage.value.Private? && p0.stage.value.token < dir.token
    requires dir.entries.Of(p0.stage.value) == Some(p0.stageId) && dir.inodes[p0.stageId] == Regular(replacement)
    requires Intrusions(dir.run) == 0 ==> dir.entries.leaf == Origin(dir.run).leaf
    modifies dir
    ensures dir.Valid() && old(dir.inodes) <= dir.inodes
    ensures p.stageId == p0.stageId && (p.stage.None? || p.stage == p0.stage)
    ensures Audit(dir.run).created == {p.stageId}
    ensures p.quarantine.Some? ==> p.quarantine.value.Private? && p.quarantine.value.token < dir.token
    ensures e == Quiet ==>
      && p.published && p.stage.None? && p.quarantine.None?
      && dir.entries.hidden == old(dir.entries).hidden - {p0.stage.value.token}
    ensures e == Quiet || e == PublishError(Committed) ==>
      && p.stage.None?
      && Accomplished(Audit(dir.run), dir.inodes, p.stageId, expected, replacement, retained)
    ensures e != Quiet && e != PublishError(Committed) ==>
      Interrupted(Audit(dir.run), dir.entries, p, e, expected)
    ensures Grows(old(dir.run), dir.run)
    ensures Smooth(old(dir.run), dir.run) && Retains(old(dir.entries), retained) ==>
      if Holds(old(dir.entries), old(dir.inodes), expected)
      then e == Quiet && dir.entries.leaf == Some(p0.stageId)
      else e == ConflictError && !p.published && p.stage == p0.stage && dir.entries == old(dir.entries)
    ensures OneFault(dir.run) && e != Quiet && e != PublishError(Committed) ==>
      LoneAttempt(dir.run, dir.inodes, p, e, expected, replacement)
  {
    e, p := Quiet, p0;
    if expected.Some? {
      e, p := Quarantine(dir, p, expected.value, maxBytes, retained);
    }
    if e == Quiet {
      e, p := PublishAndSettle(dir, p, expected, replacement, maxBytes, retained, canonical);
    }
  }

  /** Publishes a stage whose expected leaf, if any, is quarantined. */
  method PublishAndSettle(
    dir: Directory, p0: Progress, expected: Option<Bytes>, replacement: Bytes,
    maxBytes: nat, retained: Option<Inode>, canonical: bool)
    returns (e: Raised, p: Progress)
    requires dir.Valid() && ReadyToPublish(Audit(dir.run), dir.entries, p0, expected)
    requires dir.inodes[p0.stageId] == Regular(replacement)
    requires p0.quarantine.Some? ==> p0.quarantine.value.token < dir.token
    requires expected.Some? ==>
      && p0.quarantineId.value < |dir.inodes| && dir.inodes[p0.quarantineId.value] == Regular(expected.value)
      && (retained.Some? ==> p0.quarantineId == retained)
    requires |replacement| <= maxBytes && (expected.Some? ==> |expected.value| <= maxBytes)
    requires Intrusions(dir.run) == 0 ==> LoneReady(dir.run, dir.inodes, p0, expected)
    modifies dir
    ensures dir.Valid() && old(dir.token) <= dir.token && old(dir.inodes) <= dir.inodes
    ensures p.stageId == p0.stageId && (p.stage.None? || p.stage == p0.stage)
    ensures p.quarantine.None? || p.quarantine == p0.quarantine
    ensures Audit(dir.run).created == {p.stageId}
    ensures e == Quiet ==>
      && p.published && p.stage.None? && p.quarantine.None?
      && dir.entries.hidden == WithoutBoth(old(dir.entries).hidden, p0)
    ensures e == Quiet || e == PublishError(Committed) ==>
      && p.stage.None?
      && Accomplished(Audit(dir.run), dir.inodes, p.stageId, expected, replacement, retained)
    ensures e != Quiet && e != PublishError(Committed) ==>
      Interrupted(Audit(dir.run), dir.entries, p, e, expected)
    ensures Grows(old(dir.run), dir.run)
    ensures Smooth(old(dir.run), dir.run) && |replacement| <= maxBytes && old(dir.entries).leaf.None? ==>
      e == Quiet && dir.entries.leaf == Some(p0.stageId)
    ensures Smooth(old(dir.run), dir.run) && expected.None? && old(dir.entries).leaf.Some? ==>
      e == ConflictError && !p.published && p == p0 && dir.entries == old(dir.entries)
    ensures OneFault(dir.run) && e != Quiet && e != PublishError(Committed) ==>
      LoneAttempt(dir.run, dir.inodes, p, e, expected, replacement)
  {
    e, p := PublishStage(dir, p0, expected, replacement);
    if e == Quiet {
      e, p := Settle(dir, p, expected, replacement, maxBytes, retained, canonical);
    }
  }

  function WithoutBoth(hidden: map<nat, Inode>, p: Progress): map<nat, Inode>
    requires p.stage.Some? && p.stage.value.Private? && (p.quarantine.Some? ==> p.quarantine.value.Private?)
  {
    var unstaged := hidden - {p.stage.value.token};
    if p.quarantine.None? then unstaged else unstaged - {p.quarantine.value.token}
  }

  /** The operation creates no inode but its stage, which holds the replacement. */
  predicate Stages(l: Ledger, inodes: seq<Node>, stageId: Inode, replacement: Bytes) {
    l.created <= {stageId} && (stageId in l.created ==> stageId < |inodes| && inodes[stageId] == Regular(replacement))
  }

  /** Stages the replacement, and goes on from there. */
  method StageAndAdvance(
    dir: Directory, expected: Option<Bytes>, replacement: Bytes,
    maxBytes: nat, retained: Option<Inode>, canonical: bool)
    returns (e: Raised, p: Progress)
    requires dir.Valid() && Audit(dir.run) == BLANK
    requires |replacement| <= maxBytes && (expected.Some? ==> |expected.value| <= maxBytes)
    requires Intrusions(dir.run) == 0 ==> dir.entries.leaf == Origin(dir.run).leaf
    modifies dir
    ensures dir.Valid() && old(dir.inodes) <= dir.inodes
    ensures |old(dir.inodes)| <= p.stageId && Stages(Audit(dir.run), dir.inodes, p.stageId, replacement)
    ensures p.quarantine.Some? ==> p.quarantine.value.Private? && p.quarantine.value.token < dir.token
    ensures e == Quiet ==>
      && p.published && p.stage.None? && p.quarantine.None?
      && dir.entries.hidden == old(dir.entries).hidden
    ensures e == Quiet || e == PublishError(Committed) ==>
      && p.stage.None?
      && Accomplished(Audit(dir.run), dir.inodes, p.stageId, expected, replacement, retained)
    ensures e != Quiet && e != PublishError(Committed) ==>
      Interrupted(Audit(dir.run), dir.entries, p, e, expected)
    ensures Grows(old(dir.run), dir.run)
    ensures Smooth(old(dir.run), dir.run) && Retains(old(dir.entries), retained) ==>
      CalmAttempt(old(dir.entries), old(dir.inodes), dir.entries, e, p, expected, retained)
    ensures OneFault(dir.run) && e != Quiet && e != PublishError(Committed) ==>
      LoneAttempt(dir.run, dir.inodes, p, e, expected, replacement)
  {
    p := Progress(None, |dir.inodes|, None, None, false);
    var stage: Name, stageId: Inode;
    e, stage, stageId := dir.Stage(replacement);
    p := p.(stageId := stageId);
    if e == Quiet {
      p := p.(stage := Some(stage));
      assert Audit(dir.run) == BLANK.(created := {stageId});
      assert Smooth(old(dir.run), dir.run) ==> dir.entries == old(dir.entries).Put(stage, stageId);
      e, p := Advance(dir, p, expected, replacement, maxBytes, retained, canonical);
    }
  }

  /** Everything before the handlers. */
  method Attempt(
    dir: Directory, expected: Option<Bytes>, replacement: Bytes,
    maxBytes: nat, retained: Option<Inode>, canonical: bool)
    returns (e: Raised, p: Progress)
    requires dir.Valid() && Audit(dir.run) == BLANK
    requires |replacement| <= maxBytes && (expected.Some? ==> |expected.value| <= maxBytes)
    requires Intrusions(dir.run) == 0 ==> dir.entries.leaf == Origin(dir.run).leaf
    modifies dir
    ensures dir.Valid() && old(dir.inodes) <= dir.inodes
    ensures |old(dir.inodes)| <= p.stageId && Stages(Audit(dir.run), dir.inodes, p.stageId, replacement)
    ensures p.quarantine.Some? ==> p.quarantine.value.Private? && p.quarantine.value.token < dir.token
    ensures e == Quiet ==>
      && p.published && p.stage.None? && p.quarantine.None?
      && dir.entries.hidden == old(dir.entries).hidden
    ensures e == Quiet || e == PublishError(Committed) ==>
      && p.stage.None?
      && Accomplished(Audit(dir.run), dir.inodes, p.stageId, expected, replacement, retained)
    ensures e != Quiet && e != PublishError(Committed) ==>
      Interrupted(Audit(dir.run), dir.entries, p, e, expected)
    ensures Grows(old(dir.run), dir.run)
    ensures Smooth(old(dir.run), dir.run) ==>
      CalmAttempt(old(dir.entries), old(dir.inodes), dir.entries, e, p, expected, retained)
    ensures OneFault(dir.run) && e != Quiet && e != PublishError(Committed) ==>
      LoneAttempt(dir.run, dir.inodes, p, e, expected, replacement)
  {
    p := Progress(None, |dir.inodes|, None, None, false);
    e := TakeRetained(dir, retained, canonical);
    if e == Quiet {
      e, p := StageAndAdvance(dir, expected, replacement, maxBytes, retained, canonical);
    }
  }

  /** Puts the prior leaf back after an interrupted attempt: rolls back a publication, or
      restores the quarantine. */
  method GoBack(
    dir: Directory, ghost e: Raised, p: Progress, expected: Option<Bytes>, ghost replacement: Bytes, maxBytes: nat)
    returns (back: Raised)
    requires dir.Valid() && e != ConflictError
    requires p.quarantine.Some? ==> p.quarantine.value.Private? && p.quarantine.value.token < dir.token
    requires Interrupted(Audit(dir.run), dir.entries, p, e, expected)
    requires |replacement| <= maxBytes && (expected.Some? ==> |expected.value| <= maxBytes)
    requires OneFault(dir.run) ==> LoneAttempt(dir.run, dir.inodes, p, e, expected, replacement)
    modifies dir
    ensures dir.Valid() && old(dir.inodes) <= dir.inodes
    ensures Audit(dir.run).created == Audit(old(dir.run)).created && Audit(dir.run).dropped <= Audit(dir.run).created
    ensures expected.None? && Slipped(Audit(dir.run)) ==> back == Quiet && SlippedStage(Audit(dir.run), p, e)
    ensures back == Quiet ==> (Audit(dir.run).NetUnchanged() <==> !(expected.None? && Slipped(Audit(dir.run))))
    ensures p.quarantine.None? && !p.published ==> back == Quiet && dir.entries == old(dir.entries)
    ensures Grows(old(dir.run), dir.run)
    ensures OneFault(dir.run) ==> dir.entries.leaf == Origin(dir.run).leaf
    ensures OneFault(dir.run) && back != Quiet ==> RaisedMoves(dir.run) > 0
  {
    back := Quiet;
    if p.published {
      back := Rollback(dir, p.stageId, p.quarantine, p.quarantineId, expected, maxBytes);
    } else if p.quarantine.Some? {
      ghost var before;
      back, before := Restore(dir, p.quarantine.value);
    }
  }

  /** The exception handler: keeps a committed or conflicting ending, and otherwise puts
      the prior leaf back if it can. */
  method Recover(
    dir: Directory, e: Raised, p: Progress, expected: Option<Bytes>, ghost replacement: Bytes, maxBytes: nat)
    returns (ending: Ending)
    requires dir.Valid() && e != Quiet && e != PublishError(Committed)
    requires p.quarantine.Some? ==> p.quarantine.value.Private? && p.quarantine.value.token < dir.token
    requires Interrupted(Audit(dir.run), dir.entries, p, e, expected)
    requires |replacement| <= maxBytes && (expected.Some? ==> |expected.value| <= maxBytes)
    requires OneFault(dir.run) ==> LoneAttempt(dir.run, dir.inodes, p, e, expected, replacement)
    modifies dir
    ensures dir.Valid() && old(dir.inodes) <= dir.inodes
    ensures ending.Conflict? || ending.Invalid? || ending == Failed(Unpublished) || ending == Failed(Unknown)
    ensures Audit(dir.run).created == Audit(old(dir.run)).created && Audit(dir.run).dropped <= Audit(dir.run).created
    ensures expected.None? && Slipped(Audit(dir.run)) ==>
      ending == Failed(Unpublished) && SlippedStage(Audit(dir.run), p, e)
    ensures ending == Failed(Unpublished) || ending == Invalid ==>
      (Audit(dir.run).NetUnchanged() <==> !(expected.None? && Slipped(Audit(dir.run))))
    ensures ending == Conflict ==> LeftInConflict(Audit(dir.run), p.stageId)
    ensures ending == Conflict ==>
      || Audit(dir.run).NetUnchanged()
      || (p.quarantine.Some? && ShelteredAt(Audit(dir.run), dir.entries, p.quarantine.value))
    ensures (e == ConflictError || (p.quarantine.None? && e in {OsError, ValidationError})) && !p.published ==>
      !ending.Failed? || ending.outcome.Unpublished?
    ensures Grows(old(dir.run), dir.run)
    ensures
      && Smooth(old(dir.run), dir.run) && !p.published
      && (e == ConflictError || (p.quarantine.None? && e in {OsError, ValidationError})) ==>
      dir.entries == old(dir.entries)
    ensures OneFault(dir.run) ==> dir.entries.leaf == Origin(dir.run).leaf
    ensures OneFault(dir.run) && ending == Failed(Unknown) ==> RaisedMoves(dir.run) > 0
  {
    if e == ConflictError && !p.published {
      return Conflict;
    }
    var back := GoBack(dir, e, p, expected, replacement, maxBytes);
    if back != Quiet { return Failed(Unknown); }
    assert e.PublishError? ==> e.outcome != Committed && e == PublishError(e.outcome);
    ending := match e
      case ValidationError => Invalid
      case PublishError(outcome) => Failed(outcome)
      case _ => Failed(Unpublished);
  }

  /** The final handler: unlinks a stage that was not consumed, ignoring failures. */
  method CleanUp(dir: Directory, p: Progress)
    requires dir.Valid() && Audit(dir.run).dropped <= Audit(dir.run).created
    requires p.stage.Some? ==> p.stage.value.Private? && p.stage != p.quarantine && p.stageId in Audit(dir.run).created
    modifies dir
    ensures dir.Valid() && old(dir.inodes) <= dir.inodes
    ensures Audit(dir.run).(dropped := {}) == Audit(old(dir.run)).(dropped := {})
    ensures Audit(dir.run).dropped <= Audit(dir.run).created
    ensures p.quarantine.Some? && p.quarantine.value.Private? ==>
      dir.entries.Of(p.quarantine.value) == old(dir.entries).Of(p.quarantine.value)
    ensures Grows(old(dir.run), dir.run)
    ensures Smooth(old(dir.run), dir.run) ==>
      match p.stage
      case None => dir.entries == old(dir.entries)
      case Some(s) => old(dir.entries).Of(s) == Some(p.stageId) ==> dir.entries == old(dir.entries).Drop(s)
    ensures Alone(old(dir.run), dir.run) ==> dir.entries.leaf == old(dir.entries).leaf
  {
    if p.stage.Some? {
      var u, before := dir.UnlinkIfIdentity(p.stage.value, p.stageId, true);
    }
  }

  lemma PutThenDrop(d: Entries, name: Name, inode: Inode)
    requires name.Private? && d.Of(name).None?
    ensures d.Put(name, inode).Drop(name) == d
  {
    assert d.hidden[name.token := inode] - {name.token} == d.hidden;
  }

  /** Both handlers in turn, for an attempt that was interrupted. */
  method Abandon(
    dir: Directory, e: Raised, p: Progress, expected: Option<Bytes>, ghost replacement: Bytes, maxBytes: nat,
    ghost before: Entries)
    returns (ending: Ending)
    requires dir.Valid() && e != Quiet && e != PublishError(Committed)
    requires p.quarantine.Some? ==> p.quarantine.value.Private? && p.quarantine.value.token < dir.token
    requires Interrupted(Audit(dir.run), dir.entries, p, e, expected)
    requires |replacement| <= maxBytes && (expected.Some? ==> |expected.value| <= maxBytes)
    requires OneFault(dir.run) ==> LoneAttempt(dir.run, dir.inodes, p, e, expected, replacement)
    modifies dir
    ensures dir.Valid() && old(dir.inodes) <= dir.inodes
    ensures ending != Returned && ending != Failed(Committed)
    ensures Audit(dir.run).created == Audit(old(dir.run)).created && Audit(dir.run).dropped <= Audit(dir.run).created
    ensures expected.None? && Slipped(Audit(dir.run)) ==>
      ending == Failed(Unpublished) && SlippedStage(Audit(dir.run), p, e)
    ensures ending == Failed(Unpublished) || ending == Invalid ==>
      (Audit(dir.run).NetUnchanged() <==> !(expected.None? && Slipped(Audit(dir.run))))
    ensures ending == Conflict ==>
      && LeftInConflict(Audit(dir.run), p.stageId)
      && (Audit(dir.run).NetUnchanged() || exists name :: ShelteredAt(Audit(dir.run), dir.entries, name))
    ensures Grows(old(dir.run), dir.run)
    ensures Smooth(old(dir.run), dir.run) && CalmRefusal(before, old(dir.entries), e, p) ==>
      dir.entries == before && (ending.Failed? ==> ending.outcome.Unpublished?)
    ensures OneFault(dir.run) ==> dir.entries.leaf == Origin(dir.run).leaf
    ensures OneFault(dir.run) && ending == Failed(Unknown) ==> RaisedMoves(dir.run) > 0
  {
    ending := Recover(dir, e, p, expected, replacement, maxBytes);
    ghost var recovered := dir.entries;
    CleanUp(dir, p);
    if ending == Conflict && !Audit(dir.run).NetUnchanged() {
      assert ShelteredAt(Audit(dir.run), dir.entries, p.quarantine.value);
    }
    if Smooth(old(dir.run), dir.run) && CalmRefusal(before, old(dir.entries), e, p) && p.stage.Some? {
      PutThenDrop(before, p.stage.value, p.stageId);
    }
  }

  /** Closes the descriptors after a completed attempt, and abandons any other. */
  method Finish(
    dir: Directory, e: Raised, p: Progress, expected: Option<Bytes>, replacement: Bytes, maxBytes: nat,
    retained: Option<Inode>, ghost before: Entries)
    returns (ending: Ending)
    requires dir.Valid()
    requires p.quarantine.Some? ==> p.quarantine.value.Private? && p.quarantine.value.token < dir.token
    requires e == Quiet || e == PublishError(Committed) ==>
      Accomplished(Audit(dir.run), dir.inodes, p.stageId, expected, replacement, retained)
    requires e != Quiet && e != PublishError(Committed) ==>
      Interrupted(Audit(dir.run), dir.entries, p, e, expected)
    requires |replacement| <= maxBytes && (expected.Some? ==> |expected.value| <= maxBytes)
    requires OneFault(dir.run) && e != Quiet && e != PublishError(Committed) ==>
      LoneAttempt(dir.run, dir.inodes, p, e, expected, replacement)
    modifies dir
    ensures dir.Valid() && old(dir.inodes) <= dir.inodes
    ensures Audit(dir.run).created == Audit(old(dir.run)).created
    ensures if e == Quiet || e == PublishError(Committed) then Audit(dir.run) == Audit(old(dir.run))
            else Audit(dir.run).dropped <= Audit(dir.run).created
    ensures e == Quiet ==> ending == Returned || ending == Failed(Committed)
    ensures e == PublishError(Committed) ==> ending == Failed(Committed)
    ensures ending == Returned || ending == Failed(Committed) ==> e == Quiet || e == PublishError(Committed)
    ensures ending == Returned ==> dir.entries.hidden == old(dir.entries).hidden
    ensures expected.None? && Slipped(Audit(dir.run)) ==>
      ending == Failed(Unpublished) && SlippedStage(Audit(dir.run), p, e)
    ensures ending == Failed(Unpublished) || ending == Invalid ==>
      (Audit(dir.run).NetUnchanged() <==> !(expected.None? && Slipped(Audit(dir.run))))
    ensures ending == Conflict ==>
      && LeftInConflict(Audit(dir.run), p.stageId)
      && (Audit(dir.run).NetUnchanged() || exists name :: ShelteredAt(Audit(dir.run), dir.entries, name))
    ensures Grows(old(dir.run), dir.run)
    ensures Smooth(old(dir.run), dir.run) && e == Quiet ==> ending == Returned && dir.entries == old(dir.entries)
    ensures Smooth(old(dir.run), dir.run) && CalmRefusal(before, old(dir.entries), e, p) ==>
      dir.entries == before && (ending.Failed? ==> ending.outcome.Unpublished?)
    ensures OneFault(dir.run) && ending != Returned && ending != Failed(Committed) ==>
      dir.entries.leaf == Origin(dir.run).leaf && (ending == Failed(Unknown) ==> RaisedMoves(dir.run) > 0)
  {
    if e == Quiet {
      var failed := dir.Falters();
      ending := if failed then Failed(Committed) else Returned;
    } else if e == PublishError(Committed) {
      ending := Failed(Committed);
    } else {
      ending := Abandon(dir, e, p, expected, replacement, maxBytes, before);
    }
  }

  /** Replaces the leaf if it is exactly as expected, and says how that ended:
      - the only inode it creates is the stage, holding the replacement; no own step drops
        any inode but that one, except that a completed replacement drops the expected leaf
        it displaced;
      - so at every crash point everything that was in the directory when it began is there,
        but for that leaf and what foreign processes remove;
      - `Returned` and `Committed`: the replacement was read back at the name, after the
        exact expected state was displaced; `Returned` leaves no private name behind;
      - `Unpublished` and `Invalid`: what the operation found is back at the name, if and
        only if no expected-absent publication slipped; one that slips ends so, with the
        stage at the name;
      - `Conflict`: it is back, or the displaced leaf is kept under a private name and the
        name is left empty, or holding the stage if the publication slipped;
      - with at most one fault and no foreign step an operation that does not complete leaves
        the name as it found it, and says UNKNOWN only if a move raised;
      - with no fault and no foreign step it is a compare-and-swap. */
  method Replace(
    dir: Directory, expected: Option<Bytes>, replacement: Bytes,
    maxBytes: nat, retained: Option<Inode>, canonical: bool)
    returns (ending: Ending, ghost staged: Inode)
    requires dir.Valid() && dir.run.Start?
    modifies dir
    ensures dir.Valid() && old(dir.inodes) <= dir.inodes && |old(dir.inodes)| <= staged
    ensures Origin(dir.run) == old(dir.entries)
    ensures Stages(Audit(dir.run), dir.inodes, staged, replacement)
    ensures ending == Returned || ending == Failed(Committed) ==>
      Accomplished(Audit(dir.run), dir.inodes, staged, expected, replacement, retained)
    ensures ending == Returned ==> dir.entries.hidden == old(dir.entries).hidden
    ensures ending != Returned && ending != Failed(Committed) ==>
      Audit(dir.run).dropped <= Audit(dir.run).created && Preserves(dir.run, {})
    ensures Preserves(dir.run, Audit(dir.run).dropped)
    ensures ending == Failed(Unpublished) || ending == Invalid ==>
      (Audit(dir.run).NetUnchanged() <==> !(expected.None? && Slipped(Audit(dir.run))))
    ensures expected.None? && Slipped(Audit(dir.run)) ==>
      ending == Failed(Unpublished) && Audit(dir.run).placed == Some(Some(staged))
    ensures ending == Conflict ==>
      && LeftInConflict(Audit(dir.run), staged)
      && (Audit(dir.run).NetUnchanged() || exists name :: ShelteredAt(Audit(dir.run), dir.entries, name))
    ensures Calm(dir.run) && |replacement| <= maxBytes && (expected.Some? ==> |expected.value| <= maxBytes) ==>
      if Holds(old(dir.entries), old(dir.inodes), expected) && Retains(old(dir.entries), retained)
      then ending == Returned && dir.entries == old(dir.entries).(leaf := Some(staged))
      else (ending.Failed? ==> ending.outcome.Unpublished?) && ending != Returned && dir.entries == old(dir.entries)
    ensures OneFault(dir.run) && ending != Returned && ending != Failed(Committed) ==>
      dir.entries.leaf == old(dir.entries).leaf && (ending == Failed(Unknown) ==> RaisedMoves(dir.run) > 0)
  {
    staged := |dir.inodes|;
    ending := Invalid;
    if |replacement| <= maxBytes && (expected.Some? ==> |expected.value| <= maxBytes) {
      var moved := dir.Falters();
      if !moved || !canonical {
        ghost var before := dir.entries;
        var e, p := Attempt(dir, expected, replacement, maxBytes, retained, canonical);
        staged := p.stageId;
        ending := Finish(dir, e, p, expected, replacement, maxBytes, retained, before);
      }
    }
    CrashSafety(dir.run, old(dir.inodes), old(dir.token), staged);
  }
}
