/**
 Atomic exchange of one existing leaf: the public name always refers to a complete
 file, because the replacement and the current leaf trade names in one step.
 */
module LeafExchange {
  import opened Basics
  import opened Directories
  import opened Replacement

  /** The flags the exception handler consults. */
  datatype Trade = Trade(stage: Option<Name>, stageId: Inode, exchanged: bool)

  /** After an exchange the stage name holds the leaf it displaced.  (A foreign process
      that managed to link the staged inode itself at the name displaces nothing.) */
  predicate Displacing(l: Ledger, d: Entries, stage: Name, stageId: Inode) {
    && d.Of(stage).Some?
    && if d.Of(stage) == Some(stageId) then l.displaced.None? && l.placed.None?
       else l.displaced == Some(d.Of(stage))
  }

  /** Where an interrupted exchange stands, as the exception handler will find it. */
  predicate HalfTraded(l: Ledger, d: Entries, t: Trade) {
    && !l.exposed
    && l.dropped <= l.created <= {t.stageId}
    && (t.stage.Some? ==> t.stage.value.Private? && t.stageId in l.created)
    && if t.exchanged
       then t.stage.Some? && Displacing(l, d, t.stage.value, t.stageId)
       else l.NetUnchanged()
  }

  /** Since the swap no call has failed and nothing foreign has happened. */
  predicate SmoothSinceSwap(run: Run) {
    HasExchanged(run) && FirstSwap(run).displaced.Some? && Troubles(run) == FirstSwap(run).troubles
  }

  /** The swap put the stage at the name and what it displaced under the stage's name. */
  predicate Swapped(d: Entries, inodes: seq<Node>, stage: Name, stageId: Inode, replacement: Bytes) {
    && stage.Private? && d.leaf == Some(stageId) && d.Of(stage).Some? && d.Of(stage).value < |inodes|
    && stageId < |inodes| && inodes[stageId] == Regular(replacement)
  }

  predicate Traded(d: Entries, inodes: seq<Node>, t: Trade, replacement: Bytes) {
    t.exchanged && t.stage.Some? && Swapped(d, inodes, t.stage.value, t.stageId, replacement)
  }

  function EndingOf(e: Raised): (ending: Ending)
    ensures ending != Returned && (ending == Failed(Committed) <==> e == PublishError(Committed))
  {
    match e
    case ConflictError => Conflict
    case PublishError(outcome) => Failed(outcome)
    case _ => Failed(Unpublished)
  }

  /** What withdrawing makes of swapped leaves when nothing fails or interferes: they are
      traded back and the stage is removed, unless what was displaced is no regular file. */
  predicate Untraded(before: Entries, inodes: seq<Node>, after: Entries, t: Trade, e: Raised, ending: Ending)
    requires t.stage.Some? && t.stage.value.Private?
    requires before.Of(t.stage.value).Some? && before.Of(t.stage.value).value < |inodes|
  {
    var prior := before.Of(t.stage.value);
    if inodes[prior.value].Regular? then
      && after.leaf == prior && after.hidden == before.hidden - {t.stage.value.token} && ending == EndingOf(e)
    else ending == Failed(Unknown)
  }

  /** How the trade is refused when it displaced another leaf than the one that was read. */
  function Refusal(inodes: seq<Node>, prior: Inode, maxBytes: nat): Raised
    requires prior < |inodes|
  {
    if inodes[prior].Regular? && |inodes[prior].bytes| <= maxBytes then ConflictError else ValidationError
  }

  /** Without a foreign step an interrupted exchange stands at the leaf it found, or has
      traded it for the stage and a call has failed since. */
  predicate LoneTrade(run: Run, inodes: seq<Node>, t: Trade, replacement: Bytes) {
    Intrusions(run) == 0 ==>
      if t.exchanged then
        && Traded(run.now, inodes, t, replacement) && run.now.Of(t.stage.value) == Origin(run).leaf
        && inodes[Origin(run).leaf.value].Regular? && Faults(run) > 0
      else run.now.leaf == Origin(run).leaf
  }

  /** Lists both names: the public one must hold the stage, and both regular files. */
  method CheckTrade(dir: Directory, stage: Name, stageId: Inode) returns (e: Raised, displaced: Inode)
    requires dir.Valid() && stage.Private? && dir.entries.Of(stage).Some?
    modifies dir
    ensures dir.Valid() && dir.token == old(dir.token) && old(dir.inodes) <= dir.inodes
    ensures dir.entries.hidden == old(dir.entries).hidden
    ensures Audit(dir.run) == Audit(old(dir.run))
    ensures e in {Quiet, OsError, PublishError(Unknown)}
    ensures e == Quiet ==> dir.entries.Of(stage) == Some(displaced)
    ensures Grows(old(dir.run), dir.run)
    ensures KeepsSwap(old(dir.run), dir.run)
    ensures Alone(old(dir.run), dir.run) ==> dir.entries == old(dir.entries) && dir.inodes == old(dir.inodes)
    ensures
      && Smooth(old(dir.run), dir.run)
      && old(dir.entries).leaf == Some(stageId) && old(dir.inodes)[stageId].Regular? ==>
      e == if old(dir.inodes)[old(dir.entries).Of(stage).value].Regular? then Quiet else PublishError(Unknown)
  {
    e, displaced := OsError, 0;
    var published := dir.StatAt(Public);
    if published.Found? {
      var held := dir.StatAt(stage);
      if held.Found? {
        displaced := held.inode;
        e := if published.inode != stageId || !dir.inodes[published.inode].Regular? || !dir.inodes[displaced].Regular?
             then PublishError(Unknown) else Quiet;
      }
    }
  }

  /** Synchronises and lists both names again. */
  method ConfirmTrade(dir: Directory, stage: Name, atStage: Inode, atName: Inode) returns (e: Raised)
    requires dir.Valid() && stage.Private?
    modifies dir
    ensures dir.Valid() && dir.token == old(dir.token) && old(dir.inodes) <= dir.inodes
    ensures dir.entries.hidden == old(dir.entries).hidden
    ensures Audit(dir.run) == Audit(old(dir.run))
    ensures e == Quiet ==> dir.entries.Of(stage) == Some(atStage)
    ensures Grows(old(dir.run), dir.run)
    ensures KeepsSwap(old(dir.run), dir.run)
    ensures Alone(old(dir.run), dir.run) ==> dir.entries == old(dir.entries)
    ensures Smooth(old(dir.run), dir.run) && dir.entries.leaf == Some(atName) && dir.entries.Of(stage) == Some(atStage)
      ==> e == Quiet
  {
    var failed := dir.Falters();
    if failed { return OsError; }
    var restored := dir.StatAt(Public);
    if !restored.Found? { return OsError; }
    var staged := dir.StatAt(stage);
    if !staged.Found? { return OsError; }
    e := if restored.inode != atName || staged.inode != atStage then PublishError(Unknown) else Quiet;
  }

  /** Trades the two leaves back if neither has changed, and checks that they did. */
  method TradeBack(dir: Directory, stage: Name, stageId: Inode) returns (e: Raised)
    requires dir.Valid() && stage.Private?
    requires Displacing(Audit(dir.run), dir.entries, stage, stageId) && !Audit(dir.run).exposed
    modifies dir
    ensures dir.Valid() && dir.token == old(dir.token) && old(dir.inodes) <= dir.inodes
    ensures !Audit(dir.run).exposed
    ensures Audit(dir.run).created == Audit(old(dir.run)).created
    ensures Audit(dir.run).dropped == Audit(old(dir.run)).dropped
    ensures e == Quiet ==> Audit(dir.run).NetUnchanged()
    ensures Grows(old(dir.run), dir.run)
    ensures HasExchanged(old(dir.run)) ==> KeepsSwap(old(dir.run), dir.run)
    ensures
      && Smooth(old(dir.run), dir.run)
      && old(dir.entries).leaf == Some(stageId) && old(dir.inodes)[stageId].Regular? ==>
      if old(dir.inodes)[old(dir.entries).Of(stage).value].Regular?
      then e == Quiet && dir.entries == old(dir.entries).Swap(stage, Public)
      else e == PublishError(Unknown)
  {
    var displaced: Inode;
    e, displaced := CheckTrade(dir, stage, stageId);
    if e == Quiet {
      var ok, before := dir.Exchange(stage, Public);
      e := OsError;
      if ok {
        e := ConfirmTrade(dir, stage, stageId, displaced);
      }
    }
  }

  /** Reads the current leaf, which must be the expected one, and stages the replacement. */
  method Prepare(dir: Directory, expected: Bytes, replacement: Bytes, maxBytes: nat, retained: Option<Inode>)
    returns (e: Raised, t: Trade, current: Inode)
    requires dir.Valid() && Audit(dir.run) == BLANK
    modifies dir
    ensures dir.Valid() && old(dir.inodes) <= dir.inodes && |old(dir.inodes)| <= t.stageId
    ensures !t.exchanged && HalfTraded(Audit(dir.run), dir.entries, t)
    ensures Stages(Audit(dir.run), dir.inodes, t.stageId, replacement)
    ensures e in {Quiet, OsError, FileMissing, ValidationError, ConflictError}
    ensures e == Quiet ==>
      && Audit(dir.run) == BLANK.(created := {t.stageId}, verified := Some(current)) && current != t.stageId
      && t.stage == Some(Private(old(dir.token))) && old(dir.token) < dir.token
      && dir.entries.Of(t.stage.value) == Some(t.stageId)
      && dir.entries.hidden - {old(dir.token)} == old(dir.entries).hidden
      && t.stageId < |dir.inodes| && dir.inodes[t.stageId] == Regular(replacement)
      && current < |dir.inodes| && dir.inodes[current] == Regular(expected)
      && (retained.Some? ==> current == retained.value)
    ensures Grows(old(dir.run), dir.run)
    ensures Alone(old(dir.run), dir.run) ==>
      dir.entries.leaf == old(dir.entries).leaf && (e == Quiet ==> dir.entries.leaf == Some(current))
    ensures Smooth(old(dir.run), dir.run) && |expected| <= maxBytes ==>
      if Holds(old(dir.entries), old(dir.inodes), Some(expected)) && Retains(old(dir.entries), retained)
      then e == Quiet && dir.entries == old(dir.entries).Put(t.stage.value, t.stageId)
           && old(dir.entries).Of(t.stage.value).None? && old(dir.entries).leaf == Some(current)
      else e != Quiet && dir.entries == old(dir.entries) && t.stage.None?
    ensures KeepsSwap(old(dir.run), dir.run)
  {
    t := Trade(None, |dir.inodes|, false);
    e, current := ReadCurrent(dir, expected, maxBytes, retained);
    if e == Quiet {
      var stage: Name, stageId: Inode;
      e, stage, stageId := dir.Stage(replacement);
      t := Trade(if e == Quiet then Some(stage) else None, stageId, false);
    }
  }

  /** Reads the current leaf, which must be the expected one. */
  method ReadCurrent(dir: Directory, expected: Bytes, maxBytes: nat, retained: Option<Inode>)
    returns (e: Raised, current: Inode)
    requires dir.Valid() && Audit(dir.run) == BLANK
    modifies dir
    ensures dir.Valid() && dir.token == old(dir.token) && old(dir.inodes) <= dir.inodes
    ensures dir.entries.hidden == old(dir.entries).hidden
    ensures Audit(dir.run).(verified := None) == BLANK
    ensures e in {Quiet, OsError, FileMissing, ValidationError, ConflictError}
    ensures e == Quiet ==>
      && Audit(dir.run).verified == Some(current) && dir.entries.leaf == Some(current)
      && current < |dir.inodes| && dir.inodes[current] == Regular(expected)
      && (retained.Some? ==> current == retained.value)
    ensures Grows(old(dir.run), dir.run)
    ensures Alone(old(dir.run), dir.run) ==> dir.entries == old(dir.entries) && dir.inodes == old(dir.inodes)
    ensures Smooth(old(dir.run), dir.run) && |expected| <= maxBytes ==>
      if Holds(old(dir.entries), old(dir.inodes), Some(expected)) && Retains(old(dir.entries), retained)
      then e == Quiet && old(dir.entries).leaf == Some(current)
      else e != Quiet
    ensures KeepsSwap(old(dir.run), dir.run)
  {
    current := 0;
    e := TakeRetained(dir, retained, true);
    if e == Quiet {
      var r := dir.ReadRegular(Public, maxBytes);
      match r
      case ReadInvalid => e := ValidationError;
      case ReadMissing => e := FileMissing;
      case ReadFailed => e := OsError;
      case Content(bytes, inode) =>
        current := inode;
        if bytes != expected || (retained.Some? && inode != retained.value) {
          e := ConflictError;
        }
    }
  }

  /** The exchange itself: the stage name then holds what it displaced. */
  method TradeNames(dir: Directory, t0: Trade) returns (e: Raised, t: Trade)
    requires dir.Valid() && !t0.exchanged && t0.stage.Some? && t0.stage.value.Private?
    requires dir.entries.Of(t0.stage.value) == Some(t0.stageId)
    requires Audit(dir.run).(verified := None) == BLANK.(created := {t0.stageId}) && !HasExchanged(dir.run)
    modifies dir
    ensures dir.Valid() && old(dir.inodes) <= dir.inodes
    ensures Audit(dir.run).created == {t0.stageId}
    ensures t == (if e == Quiet then t0.(exchanged := true) else t0) && e != PublishError(Committed)
    ensures HalfTraded(Audit(dir.run), dir.entries, t) && Audit(dir.run).dropped == {}
    ensures dir.entries.hidden - {t0.stage.value.token} == old(dir.entries).hidden - {t0.stage.value.token}
    ensures e == Quiet && dir.entries.Of(t0.stage.value) != Some(t0.stageId) ==>
      Audit(dir.run).placed == Some(Some(t0.stageId))
    ensures Grows(old(dir.run), dir.run)
    ensures Alone(old(dir.run), dir.run) ==> dir.inodes == old(dir.inodes)
    ensures Smooth(old(dir.run), dir.run) && old(dir.entries).leaf.Some? ==>
      && e == Quiet && dir.entries.leaf == Some(t0.stageId)
      && dir.entries.Of(t0.stage.value) == old(dir.entries).leaf
    ensures e != Quiet ==> Audit(dir.run).displaced.None? && e in {OsError, ValidationError}
    ensures e == Quiet ==> dir.entries.leaf == Some(t0.stageId) && dir.entries.Of(t0.stage.value).Some?
    ensures HasExchanged(dir.run) <==> e == Quiet
    ensures e == Quiet ==>
      && FirstSwap(dir.run) == Swap(Troubles(dir.run), Audit(old(dir.run)).verified, Audit(dir.run).displaced)
      && (Audit(dir.run).displaced.Some? ==> Audit(dir.run).displaced == Some(dir.entries.Of(t0.stage.value)))
    ensures Alone(old(dir.run), dir.run) ==>
      if e == Quiet then dir.entries.Of(t0.stage.value) == old(dir.entries).leaf
      else dir.entries.leaf == old(dir.entries).leaf
  {
    t, e := t0, ValidationError;
    var moved := dir.Falters();
    if !moved {
      var ok, before := dir.Exchange(t.stage.value, Public);
      e := OsError;
      if ok {
        t, e := t.(exchanged := true), Quiet;
      }
    }
  }

  /** Where an exchange stands when nothing has failed or interfered since the swap: done if
      the swap displaced the leaf that was read, and otherwise refused with the leaves still
      swapped. */
  ghost predicate Settling(
    run: Run, inodes: seq<Node>, others: map<nat, Inode>, e: Raised, t: Trade, replacement: Bytes, maxBytes: nat)
    requires SmoothSinceSwap(run)
  {
    var displaced := FirstSwap(run).displaced.value;
    && displaced.Some? && displaced.value < |inodes|
    && if FirstSwap(run).seen == displaced then e == Quiet
       else
         && e == Refusal(inodes, displaced.value, maxBytes) && Traded(run.now, inodes, t, replacement)
         && run.now.Of(t.stage.value) == displaced && run.now.hidden - {t.stage.value.token} == others
  }

  /** Unlinks the displaced leaf. */
  method Discard(dir: Directory, t0: Trade, current: Inode) returns (e: Raised, t: Trade)
    requires dir.Valid() && t0.stage.Some? && t0.stage.value.Private?
    requires dir.entries.Of(t0.stage.value) == Some(current)
    modifies dir
    ensures dir.Valid() && old(dir.inodes) <= dir.inodes
    ensures Audit(dir.run).(dropped := {}) == Audit(old(dir.run)).(dropped := {})
    ensures Audit(dir.run).dropped <= Audit(old(dir.run)).dropped + {current}
    ensures e == Quiet || e == PublishError(Committed)
    ensures t.stageId == t0.stageId
    ensures e == Quiet ==> t.stage.None? && dir.entries.hidden == old(dir.entries).hidden - {t0.stage.value.token}
    ensures Grows(old(dir.run), dir.run)
    ensures Alone(old(dir.run), dir.run) ==> dir.entries.leaf == old(dir.entries).leaf
    ensures Smooth(old(dir.run), dir.run) ==> e == Quiet
    ensures KeepsSwap(old(dir.run), dir.run)
  {
    t, e := t0, PublishError(Committed);
    var u, before := dir.UnlinkIfIdentity(t.stage.value, current, false);
    if u == RemoveOk {
      t, e := Trade(None, t.stageId, false), Quiet;
    }
  }

  /** From a written stage to a committed exchange. */
  method Commit(
    dir: Directory, t0: Trade, current: Inode, expected: Bytes, replacement: Bytes,
    maxBytes: nat, retained: Option<Inode>)
    returns (e: Raised, t: Trade)
    requires dir.Valid() && !t0.exchanged && t0.stage.Some? && t0.stage.value.Private?
    requires dir.entries.Of(t0.stage.value) == Some(t0.stageId)
    requires Audit(dir.run).(verified := None) == BLANK.(created := {t0.stageId})
    requires current < |dir.inodes| && dir.inodes[current] == Regular(expected)
    requires retained.Some? ==> current == retained.value
    requires t0.stageId < |dir.inodes| && dir.inodes[t0.stageId] == Regular(replacement) && current != t0.stageId
    requires |expected| <= maxBytes && |replacement| <= maxBytes && Audit(dir.run).verified == Some(current)
    requires Intrusions(dir.run) == 0 ==> dir.entries.leaf == Origin(dir.run).leaf == Some(current)
    requires !HasExchanged(dir.run)
    modifies dir
    ensures dir.Valid() && old(dir.inodes) <= dir.inodes
    ensures t.stageId == t0.stageId && Audit(dir.run).created == {t.stageId}
    ensures !Audit(dir.run).exposed
    ensures e == Quiet || e == PublishError(Committed) ==>
      Accomplished(Audit(dir.run), dir.inodes, t.stageId, Some(expected), replacement, retained)
    ensures e == Quiet ==>
      t.stage.None? && dir.entries.hidden == old(dir.entries).hidden - {t0.stage.value.token}
    ensures e != Quiet && e != PublishError(Committed) ==>
      && HalfTraded(Audit(dir.run), dir.entries, t) && t.stage == t0.stage
      && LoneTrade(dir.run, dir.inodes, t, replacement)
      && (Intrusions(dir.run) == 0 ==> !e.PublishError?)
    ensures Grows(old(dir.run), dir.run)
    ensures Smooth(old(dir.run), dir.run) && old(dir.entries).leaf == Some(current) ==>
      e == Quiet && dir.entries.leaf == Some(t0.stageId)
    ensures HasExchanged(dir.run) <==> e == Quiet || e == PublishError(Committed) || t.exchanged
    ensures SmoothSinceSwap(dir.run) ==>
      && FirstSwap(dir.run).seen == Some(current)
      && Settling(dir.run, dir.inodes, old(dir.entries).hidden - {t0.stage.value.token}, e, t, replacement, maxBytes)
  {
    e, t := TradeNames(dir, t0);
    if e == Quiet {
      var stage := t.stage.value;
      e := Inspect(dir, stage, t.stageId, current, expected, replacement, maxBytes);
      if e == Quiet {
        e, t := Discard(dir, t, current);
      }
    }
  }

  /** Reads what the exchange displaced, which must be the leaf that was read. */
  method InspectDisplaced(dir: Directory, stage: Name, current: Inode, expected: Bytes, maxBytes: nat)
    returns (e: Raised)
    requires dir.Valid() && stage.Private?
    modifies dir
    ensures dir.Valid() && dir.token == old(dir.token) && old(dir.inodes) <= dir.inodes
    ensures dir.entries.hidden == old(dir.entries).hidden
    ensures Audit(dir.run) == Audit(old(dir.run))
    ensures e in {Quiet, OsError, FileMissing, ValidationError, ConflictError}
    ensures e == Quiet ==> dir.entries.Of(stage) == Some(current)
    ensures Grows(old(dir.run), dir.run)
    ensures KeepsSwap(old(dir.run), dir.run)
    ensures Alone(old(dir.run), dir.run) ==> dir.entries == old(dir.entries) && dir.inodes == old(dir.inodes)
    ensures Smooth(old(dir.run), dir.run) && old(dir.entries).Of(stage).Some? ==>
      var prior := old(dir.entries).Of(stage).value;
      && (prior != current ==> e == Refusal(dir.inodes, prior, maxBytes))
      && (prior == current && dir.inodes[prior] == Regular(expected) && |expected| <= maxBytes ==> e == Quiet)
  {
    var r := dir.ReadRegular(stage, maxBytes);
    match r
    case ReadInvalid => e := ValidationError;
    case ReadMissing => e := FileMissing;
    case ReadFailed => e := OsError;
    case Content(bytes, inode) =>
      e := if bytes != expected || inode != current then ConflictError else Quiet;
  }

  /** Synchronises and verifies the replacement at the name. */
  method InspectPublished(dir: Directory, stageId: Inode, replacement: Bytes, maxBytes: nat) returns (e: Raised)
    requires dir.Valid()
    modifies dir
    ensures dir.Valid() && dir.token == old(dir.token) && old(dir.inodes) <= dir.inodes
    ensures dir.entries.hidden == old(dir.entries).hidden
    ensures Audit(dir.run).(verified := None) == Audit(old(dir.run)).(verified := None)
    ensures e != PublishError(Committed)
    ensures e == Quiet ==> Audit(dir.run).verified == Some(stageId)
    ensures Grows(old(dir.run), dir.run)
    ensures KeepsSwap(old(dir.run), dir.run)
    ensures Alone(old(dir.run), dir.run) ==> dir.entries == old(dir.entries) && dir.inodes == old(dir.inodes)
    ensures
      && dir.entries.leaf == Some(stageId) && stageId < |dir.inodes|
      && dir.inodes[stageId] == Regular(replacement) ==>
      && (Alone(old(dir.run), dir.run) ==> !e.PublishError?)
      && (Smooth(old(dir.run), dir.run) && |replacement| <= maxBytes ==> e == Quiet)
  {
    var failed := dir.Falters();
    e := OsError;
    if !failed {
      e := Verify(dir, replacement, stageId, maxBytes);
    }
  }

  /** Proves the canonical path and retains the leaf. */
  method Revalidate(dir: Directory, stageId: Inode) returns (e: Raised)
    requires dir.Valid()
    modifies dir
    ensures dir.Valid() && dir.token == old(dir.token) && old(dir.inodes) <= dir.inodes
    ensures dir.entries.hidden == old(dir.entries).hidden
    ensures Audit(dir.run) == Audit(old(dir.run))
    ensures e != PublishError(Committed)
    ensures Grows(old(dir.run), dir.run)
    ensures KeepsSwap(old(dir.run), dir.run)
    ensures Alone(old(dir.run), dir.run) ==> dir.entries == old(dir.entries) && dir.inodes == old(dir.inodes)
    ensures dir.entries.leaf == Some(stageId) ==>
      && (Alone(old(dir.run), dir.run) ==> !e.PublishError?)
      && (Smooth(old(dir.run), dir.run) ==> e == Quiet)
  {
    var moved := dir.Falters();
    e := ValidationError;
    if !moved {
      e := ValidateAndRetain(dir, stageId);
    }
  }

  /** After the exchange: synchronises, verifies the replacement at the name and the
      displaced leaf at the stage, proves the canonical path and retains the leaf. */
  method Inspect(
    dir: Directory, stage: Name, stageId: Inode, current: Inode, expected: Bytes, replacement: Bytes, maxBytes: nat)
    returns (e: Raised)
    requires dir.Valid() && stage.Private?
    modifies dir
    ensures dir.Valid() && dir.token == old(dir.token) && old(dir.inodes) <= dir.inodes
    ensures dir.entries.hidden == old(dir.entries).hidden
    ensures Audit(dir.run).(verified := None) == Audit(old(dir.run)).(verified := None)
    ensures e != PublishError(Committed)
    ensures e == Quiet ==> Audit(dir.run).verified == Some(stageId) && dir.entries.Of(stage) == Some(current)
    ensures Grows(old(dir.run), dir.run)
    ensures KeepsSwap(old(dir.run), dir.run)
    ensures Alone(old(dir.run), dir.run) ==> dir.entries == old(dir.entries) && dir.inodes == old(dir.inodes)
    ensures Alone(old(dir.run), dir.run) && Swapped(old(dir.entries), old(dir.inodes), stage, stageId, replacement)
      ==> !e.PublishError?
    ensures
      && Smooth(old(dir.run), dir.run) && |expected| <= maxBytes && |replacement| <= maxBytes
      && Swapped(old(dir.entries), old(dir.inodes), stage, stageId, replacement) ==>
      var prior := old(dir.entries).Of(stage).value;
      && (prior != current ==> e == Refusal(dir.inodes, prior, maxBytes))
      && (prior == current && dir.inodes[prior] == Regular(expected) ==> e == Quiet)
  {
    e := InspectPublished(dir, stageId, replacement, maxBytes);
    if e == Quiet {
      e := InspectDisplaced(dir, stage, current, expected, maxBytes);
      if e == Quiet {
        e := Revalidate(dir, stageId);
      }
    }
  }

  /** Unlinks a stage that holds the replacement, ignoring failures. */
  method DropStage(dir: Directory, t: Trade)
    requires dir.Valid() && (t.stage.Some? ==> t.stage.value.Private?)
    modifies dir
    ensures dir.Valid() && old(dir.inodes) <= dir.inodes
    ensures Audit(dir.run).(dropped := {}) == Audit(old(dir.run)).(dropped := {})
    ensures Audit(dir.run).dropped <= Audit(old(dir.run)).dropped + if t.stage.Some? then {t.stageId} else {}
    ensures Grows(old(dir.run), dir.run)
    ensures KeepsSwap(old(dir.run), dir.run)
    ensures Alone(old(dir.run), dir.run) ==> dir.entries.leaf == old(dir.entries).leaf
    ensures Smooth(old(dir.run), dir.run) ==>
      dir.entries == match t.stage
        case None => old(dir.entries)
        case Some(s) => if old(dir.entries).Of(s) == Some(t.stageId) then old(dir.entries).Drop(s) else old(dir.entries)
  {
    if t.stage.Some? {
      var u, before := dir.UnlinkIfIdentity(t.stage.value, t.stageId, true);
    }
  }

  /** The handlers: trades the leaves back if they were exchanged, then unlinks a stage
      that holds the replacement again. */
  method Withdraw(dir: Directory, e: Raised, t: Trade, ghost replacement: Bytes) returns (ending: Ending)
    requires dir.Valid() && e != Quiet && e != PublishError(Committed)
    requires HalfTraded(Audit(dir.run), dir.entries, t) && LoneTrade(dir.run, dir.inodes, t, replacement)
    requires Intrusions(dir.run) == 0 ==> !e.PublishError?
    modifies dir
    ensures dir.Valid() && old(dir.inodes) <= dir.inodes
    ensures ending != Returned && ending != Failed(Committed)
    ensures Audit(dir.run).created == Audit(old(dir.run)).created
    ensures !Audit(dir.run).exposed && Audit(dir.run).dropped <= Audit(dir.run).created
    ensures ending != Failed(Unknown) ==> Audit(dir.run).NetUnchanged()
    ensures Grows(old(dir.run), dir.run)
    ensures Smooth(old(dir.run), dir.run) && t.stage.None? ==> dir.entries == old(dir.entries)
    ensures HasExchanged(old(dir.run)) || !t.exchanged ==> KeepsSwap(old(dir.run), dir.run)
    ensures
      && Smooth(old(dir.run), dir.run)
      && Traded(old(dir.entries), old(dir.inodes), t, replacement) ==>
      Untraded(old(dir.entries), old(dir.inodes), dir.entries, t, e, ending)
    ensures Intrusions(dir.run) == 0 && Faults(dir.run) <= 1 ==>
      ending != Failed(Unknown) && dir.entries.leaf == Origin(dir.run).leaf
  {
    if t.exchanged {
      var back := TradeBack(dir, t.stage.value, t.stageId);
      if back != Quiet { return Failed(Unknown); }
    }
    ending := EndingOf(e);
    DropStage(dir, t);
  }

  /** Everything before the handlers. */
  method Attempt(dir: Directory, expected: Bytes, replacement: Bytes, maxBytes: nat, retained: Option<Inode>)
    returns (e: Raised, t: Trade)
    requires dir.Valid() && Audit(dir.run) == BLANK && !HasExchanged(dir.run)
    requires |expected| <= maxBytes && |replacement| <= maxBytes
    requires Intrusions(dir.run) == 0 ==> dir.entries.leaf == Origin(dir.run).leaf
    modifies dir
    ensures dir.Valid() && old(dir.inodes) <= dir.inodes && |old(dir.inodes)| <= t.stageId
    ensures Stages(Audit(dir.run), dir.inodes, t.stageId, replacement) && !Audit(dir.run).exposed
    ensures e == Quiet || e == PublishError(Committed) ==>
      Accomplished(Audit(dir.run), dir.inodes, t.stageId, Some(expected), replacement, retained)
    ensures e == Quiet ==> t.stage.None? && dir.entries.hidden == old(dir.entries).hidden
    ensures e != Quiet && e != PublishError(Committed) ==>
      && HalfTraded(Audit(dir.run), dir.entries, t) && LoneTrade(dir.run, dir.inodes, t, replacement)
      && (Intrusions(dir.run) == 0 ==> !e.PublishError?)
    ensures Grows(old(dir.run), dir.run)
    ensures Smooth(old(dir.run), dir.run) ==>
      if Holds(old(dir.entries), old(dir.inodes), Some(expected)) && Retains(old(dir.entries), retained)
      then e == Quiet && dir.entries.leaf == Some(t.stageId)
      else e != Quiet && e != PublishError(Committed) && dir.entries == old(dir.entries) && t.stage.None?
    ensures HasExchanged(dir.run) <==> e == Quiet || e == PublishError(Committed) || t.exchanged
    ensures SmoothSinceSwap(dir.run) ==>
      Settling(dir.run, dir.inodes, old(dir.entries).hidden, e, t, replacement, maxBytes)
  {
    var current;
    e, t, current := Prepare(dir, expected, replacement, maxBytes, retained);
    if e == Quiet {
      assert dir.entries.hidden - {t.stage.value.token} == old(dir.entries).hidden;
      e, t := Commit(dir, t, current, expected, replacement, maxBytes, retained);
    }
  }

  /** How an exchange ends when nothing has failed or interfered since the swap. */
  ghost predicate SettledTrade(run: Run, inodes: seq<Node>, others: map<nat, Inode>, ending: Ending, maxBytes: nat)
    requires SmoothSinceSwap(run)
  {
    var displaced := FirstSwap(run).displaced.value;
    && displaced.Some? && displaced.value < |inodes|
    && var prior := displaced.value;
       if FirstSwap(run).seen == Some(prior) then ending == Returned
       else if inodes[prior].Special? then ending == Failed(Unknown)
       else
         && run.now.leaf == Some(prior) && run.now.hidden == others
         && ending == if |inodes[prior].bytes| <= maxBytes then Conflict else Failed(Unpublished)
  }

  /** Closes the descriptors after a completed exchange, and withdraws any other. */
  method Finish(
    dir: Directory, e: Raised, t: Trade, ghost others: map<nat, Inode>, ghost replacement: Bytes, ghost maxBytes: nat)
    returns (ending: Ending)
    requires dir.Valid() && !Audit(dir.run).exposed
    requires e != Quiet && e != PublishError(Committed) ==>
      && HalfTraded(Audit(dir.run), dir.entries, t) && LoneTrade(dir.run, dir.inodes, t, replacement)
      && (Intrusions(dir.run) == 0 ==> !e.PublishError?)
    requires HasExchanged(dir.run) <==> e == Quiet || e == PublishError(Committed) || t.exchanged
    requires SmoothSinceSwap(dir.run) ==> Settling(dir.run, dir.inodes, others, e, t, replacement, maxBytes)
    modifies dir
    ensures dir.Valid() && old(dir.inodes) <= dir.inodes && !Audit(dir.run).exposed
    ensures Audit(dir.run).created == Audit(old(dir.run)).created
    ensures if e == Quiet || e == PublishError(Committed) then Audit(dir.run) == Audit(old(dir.run))
            else Audit(dir.run).dropped <= Audit(dir.run).created
    ensures e == Quiet ==> ending == Returned || ending == Failed(Committed)
    ensures e == PublishError(Committed) ==> ending == Failed(Committed)
    ensures ending == Returned || ending == Failed(Committed) ==> e == Quiet || e == PublishError(Committed)
    ensures ending == Returned ==> dir.entries.hidden == old(dir.entries).hidden
    ensures ending == Conflict || ending == Failed(Unpublished) || ending == Invalid ==>
      Audit(dir.run).NetUnchanged()
    ensures Grows(old(dir.run), dir.run)
    ensures Smooth(old(dir.run), dir.run) && e == Quiet ==> ending == Returned && dir.entries == old(dir.entries)
    ensures Smooth(old(dir.run), dir.run) && t.stage.None? ==> dir.entries == old(dir.entries)
    ensures SmoothSinceSwap(dir.run) ==> SettledTrade(dir.run, dir.inodes, others, ending, maxBytes)
    ensures Intrusions(dir.run) == 0 && Faults(dir.run) <= 1 && ending != Returned && ending != Failed(Committed) ==>
      ending != Failed(Unknown) && dir.entries.leaf == Origin(dir.run).leaf
  {
    ghost var mid := dir.run;
    if HasExchanged(mid) { SwapWasBefore(mid); }
    if e == Quiet {
      var failed := dir.Falters();
      ending := if failed then Failed(Committed) else Returned;
    } else if e == PublishError(Committed) {
      ending := Failed(Committed);
    } else {
      ending := Withdraw(dir, e, t, replacement);
    }
  }

  /** Exchanges the leaf if it is exactly as expected, and says how that ended:
      - no own step ever leaves the public name absent: unless a foreign process removes the
        leaf, a name that was present is present at every crash point;
      - the only inode it creates is the stage, holding the replacement; no own step drops
        any inode but that one, except that a completed exchange drops the expected leaf it
        displaced; so at every crash point everything that was in the directory when it began
        is there, but for that leaf and what foreign processes remove;
      - `Returned` and `Committed`: the replacement was read back at the name and it
        displaced the exact expected leaf; `Returned` leaves no private name behind;
      - `Conflict`, `Unpublished` and `Invalid`: whatever the operation found at the name,
        a competitor included, is what it last put there;
      - once the leaves have been swapped, and if nothing fails or is interfered with since:
        it returns if the swap displaced the leaf that was read, and otherwise the competitor
        is traded back and reported; only one that is no regular file is not;
      - with at most one fault and no foreign step it never ends with UNKNOWN;
      - with no fault and no foreign step it is a compare-and-swap. */
  method ExchangeIfExact(dir: Directory, expected: Bytes, replacement: Bytes, maxBytes: nat, retained: Option<Inode>)
    returns (ending: Ending, ghost staged: Inode)
    requires dir.Valid() && dir.run.Start?
    modifies dir
    ensures dir.Valid() && old(dir.inodes) <= dir.inodes && |old(dir.inodes)| <= staged
    ensures Origin(dir.run) == old(dir.entries)
    ensures old(dir.entries).leaf.Some? && !ForeignRemoves(dir.run) ==> NeverAbsent(dir.run)
    ensures Stages(Audit(dir.run), dir.inodes, staged, replacement)
    ensures !Audit(dir.run).exposed
    ensures ending == Returned || ending == Failed(Committed) ==>
      Accomplished(Audit(dir.run), dir.inodes, staged, Some(expected), replacement, retained)
    ensures ending == Returned ==> dir.entries.hidden == old(dir.entries).hidden
    ensures ending != Returned && ending != Failed(Committed) ==>
      Audit(dir.run).dropped <= Audit(dir.run).created && Preserves(dir.run, {})
    ensures Preserves(dir.run, Audit(dir.run).dropped)
    ensures ending == Conflict || ending == Failed(Unpublished) || ending == Invalid ==>
      Audit(dir.run).NetUnchanged()
    ensures SmoothSinceSwap(dir.run) ==> SettledTrade(dir.run, dir.inodes, old(dir.entries).hidden, ending, maxBytes)
    ensures Intrusions(dir.run) == 0 && Faults(dir.run) <= 1 && ending != Returned && ending != Failed(Committed) ==>
      ending != Failed(Unknown) && dir.entries.leaf == old(dir.entries).leaf
    ensures Calm(dir.run) && |replacement| <= maxBytes && |expected| <= maxBytes ==>
      if Holds(old(dir.entries), old(dir.inodes), Some(expected)) && Retains(old(dir.entries), retained)
      then ending == Returned && dir.entries == old(dir.entries).(leaf := Some(staged))
      else ending != Returned && dir.entries == old(dir.entries)
  {
    staged := |dir.inodes|;
    ending := Invalid;
    if |expected| <= maxBytes && |replacement| <= maxBytes {
      var moved := dir.Falters();
      if !moved {
        var e, t := Attempt(dir, expected, replacement, maxBytes, retained);
        staged := t.stageId;
        ending := Finish(dir, e, t, old(dir.entries).hidden, replacement, maxBytes);
      }
    }
    CrashSafety(dir.run, old(dir.inodes), old(dir.token), staged);
  }
}
