/**
 Exact removal of one leaf: move it to a quarantine name, check it there, and unlink it
 only if it is exactly the expected one.
 */
module Removal {
  import opened Basics
  import opened Directories
  import opened Replacement

  /** `Leaked` is an operating-system error that passes through unclassified. */
  datatype Departure = Gone | Kept | Refused | Stopped(outcome: Outcome) | Leaked

  /** The leaf the operation displaced is exactly the expected one, and nothing else has
      been dropped. */
  predicate OnlyExpectedDropped(l: Ledger, inodes: seq<Node>, expected: Bytes, retained: Option<Inode>) {
    && l.displaced.Some? && l.displaced.value.Some?
    && var prior := l.displaced.value.value;
       prior < |inodes| && inodes[prior] == Regular(expected)
       && (retained.Some? ==> prior == retained.value)
       && l.dropped <= {prior}
  }

  /** After the operation emptied the public name, a foreign process linked the inode there. */
  ghost predicate Relinked(run: Run, inode: Inode) {
    exists moment :: Moment(moment, run) && moment.now.leaf == Some(inode) && Audit(moment).placed == Some(None)
  }

  /** Where the leaf the operation displaced is: back at the name, under a private name, or,
      when it was the exact expected one, dropped or in foreign hands. */
  ghost predicate Accounted(run: Run, inodes: seq<Node>, expected: Bytes, retained: Option<Inode>) {
    var l := Audit(run);
    || l.NetUnchanged()
    || (exists name :: ShelteredAt(l, run.now, name))
    || (OnlyExpectedDropped(l, inodes, expected, retained)
        && (l.dropped != {} || Relinked(run, l.displaced.value.value)))
  }

  /** What is at the name in the end, with at most one fault and nothing foreign: the leaf that
      was found, unless it was the expected one or a move raised. */
  predicate LoneEnd(run: Run, inodes: seq<Node>, found: Option<Inode>, end: Departure, expected: Bytes,
      retained: Option<Inode>) {
    && end != Stopped(Unknown)
    && (end == Gone || end == Stopped(Committed) ==> run.now.leaf.None?)
    && (end == Kept || end == Refused ==> run.now.leaf == found)
    && (end == Leaked ==>
          run.now.leaf == found || RaisedMoves(run) > 0 || OnlyExpectedDropped(Audit(run), inodes, expected, retained))
  }

  /** Removes the leaf if it is exactly as expected:
      - no own step drops an inode other than the exact expected leaf, and one that was
        displaced is dropped only by `Gone`, `Stopped(Committed)` or `Leaked`;
      - however it ends, a displaced leaf is back at the name, kept under a private name, or
        was the expected one and is dropped (or a foreign process linked it back); at every
        crash point everything that was in the directory when it began is there, but for a
        dropped leaf and what foreign processes remove;
      - `Gone` leaves the public name as the operation emptied it, and no private name;
      - `Refused`: what the operation found is what it last put at the name;
      - `Kept` (a conflict): the same, or the displaced leaf is under a private name;
      - with at most one fault and no foreign step it never ends with UNKNOWN, a leaf that it
        refuses or keeps is back at the name, and so is any leaf but the expected one unless
        a move raised;
      - with no fault and no foreign step it removes the leaf exactly when it is the
        expected one. */
  method UnlinkIfExact(dir: Directory, expected: Bytes, maxBytes: nat, retained: Option<Inode>, canonical: bool)
    returns (end: Departure)
    requires dir.Valid() && dir.run.Start?
    modifies dir
    ensures dir.Valid() && old(dir.inodes) <= dir.inodes
    ensures Origin(dir.run) == old(dir.entries)
    ensures Audit(dir.run).dropped != {} ==> OnlyExpectedDropped(Audit(dir.run), dir.inodes, expected, retained)
    ensures Preserves(dir.run, Audit(dir.run).dropped)
    ensures Accounted(dir.run, dir.inodes, expected, retained)
    ensures end == Kept || end == Refused || end == Stopped(Unknown) ==> Audit(dir.run).dropped == {}
    ensures end == Gone || end == Stopped(Committed) ==>
      OnlyExpectedDropped(Audit(dir.run), dir.inodes, expected, retained) && Audit(dir.run).placed == Some(None)
    ensures end == Gone ==> dir.entries.hidden == old(dir.entries).hidden
    ensures end == Refused ==> Audit(dir.run).NetUnchanged()
    ensures end == Kept ==>
      Audit(dir.run).NetUnchanged() || exists name :: ShelteredAt(Audit(dir.run), dir.entries, name)
    ensures end != Stopped(Unpublished)
    ensures Calm(dir.run) && |expected| <= maxBytes ==>
      if Holds(old(dir.entries), old(dir.inodes), Some(expected)) && Retains(old(dir.entries), retained)
      then end == Gone && dir.entries == old(dir.entries).(leaf := None)
      else end != Gone && dir.entries == old(dir.entries)
    ensures OneFault(dir.run) ==> LoneEnd(dir.run, dir.inodes, old(dir.entries).leaf, end, expected, retained)
  {
    end := Refused;
    if |expected| <= maxBytes {
      var moved := dir.Falters();
      if !moved || !canonical {
        var e := TakeRetained(dir, retained, canonical);
        if e == Quiet {
          var q, m := SetAside(dir);
          if m == MoveOk {
            end := Judge(dir, q, expected, maxBytes, retained, canonical);
          } else {
            end := if m == MoveMissing then Kept else Leaked;
          }
        } else {
          end := if e == ValidationError then Refused else Leaked;
        }
      }
    }
    PreservesAllButDropped(dir.run);
  }

  /** Checks the quarantined leaf, then unlinks it or moves it back. */
  method Judge(
    dir: Directory, q: Name, expected: Bytes, maxBytes: nat, retained: Option<Inode>, canonical: bool)
    returns (end: Departure)
    requires dir.Valid() && q.Private?
    requires dir.entries.Of(q).Some? && Audit(dir.run).displaced == Some(dir.entries.Of(q))
    requires Audit(dir.run).placed == Some(None) && Audit(dir.run).dropped == {}
    modifies dir
    ensures dir.Valid() && old(dir.inodes) <= dir.inodes
    ensures Audit(dir.run).dropped != {} ==> OnlyExpectedDropped(Audit(dir.run), dir.inodes, expected, retained)
    ensures Accounted(dir.run, dir.inodes, expected, retained)
    ensures end == Kept || end == Refused || end == Stopped(Unknown) ==> Audit(dir.run).dropped == {}
    ensures end != Stopped(Unpublished)
    ensures end == Gone || end == Stopped(Committed) ==>
      OnlyExpectedDropped(Audit(dir.run), dir.inodes, expected, retained) && Audit(dir.run).placed == Some(None)
    ensures end == Gone ==> dir.entries.hidden == old(dir.entries).hidden - {q.token}
    ensures end == Refused ==> Audit(dir.run).NetUnchanged()
    ensures end == Kept ==>
      Audit(dir.run).NetUnchanged() || exists name :: ShelteredAt(Audit(dir.run), dir.entries, name)
    ensures Grows(old(dir.run), dir.run)
    ensures Smooth(old(dir.run), dir.run) && old(dir.entries).leaf.None? && |expected| <= maxBytes ==>
      var prior := old(dir.entries).Of(q);
      if Holds(Entries(prior, map[]), old(dir.inodes), Some(expected)) && (retained.Some? ==> prior == retained)
      then end == Gone && dir.entries == old(dir.entries).Drop(q)
      else end != Gone && dir.entries == old(dir.entries).Rename(q, Public)
    ensures OneFault(dir.run) && old(dir.entries).leaf.None? && |expected| <= maxBytes ==>
      LoneEnd(dir.run, dir.inodes, old(dir.entries).Of(q), end, expected, retained)
  {
    var r := dir.ReadRegular(q, maxBytes);
    if !r.Content? || r.bytes != expected || (retained.Some? && r.inode != retained.value) {
      end := PutBack(dir, q, expected, retained);
    } else {
      var moved := dir.Falters();
      if canonical && moved {
        end := HandBack(dir, q, expected, r.inode, maxBytes, retained);
      } else {
        end := Dispose(dir, q, expected, r.inode, retained);
      }
    }
  }

  /** The canonical path is lost: moves the expected leaf back and verifies it there. */
  method HandBack(dir: Directory, q: Name, expected: Bytes, id: Inode, maxBytes: nat, retained: Option<Inode>)
    returns (end: Departure)
    requires dir.Valid() && q.Private?
    requires dir.entries.Of(q) == Some(id) && Audit(dir.run).displaced == Some(Some(id))
    requires Audit(dir.run).placed == Some(None)
    modifies dir
    ensures dir.Valid() && old(dir.inodes) <= dir.inodes
    ensures Audit(dir.run).dropped == Audit(old(dir.run)).dropped
    ensures Accounted(dir.run, dir.inodes, expected, retained)
    ensures end == Stopped(Unknown) || (end == Refused && Audit(dir.run).NetUnchanged())
    ensures Grows(old(dir.run), dir.run)
    ensures
      && Smooth(old(dir.run), dir.run) && old(dir.entries).leaf.None? && |expected| <= maxBytes
      && old(dir.inodes)[id] == Regular(expected) ==>
      end == Refused && dir.entries.leaf == Some(id)
  {
    var back, before := Restore(dir, q);
    assert dir.entries == before ==> ShelteredAt(Audit(dir.run), dir.entries, q);
    if back == Quiet {
      back := Verify(dir, expected, id, maxBytes);
    }
    end := if back == Quiet then Refused else Stopped(Unknown);
  }

  /** Unlinks the quarantined leaf, which is the expected one. */
  method Dispose(dir: Directory, q: Name, expected: Bytes, id: Inode, retained: Option<Inode>)
    returns (end: Departure)
    requires dir.Valid() && q.Private?
    requires dir.entries.Of(q) == Some(id) && Audit(dir.run).displaced == Some(Some(id))
    requires Audit(dir.run).placed == Some(None) && Audit(dir.run).dropped == {}
    requires id < |dir.inodes| && dir.inodes[id] == Regular(expected) && (retained.Some? ==> id == retained.value)
    modifies dir
    ensures dir.Valid() && old(dir.inodes) <= dir.inodes
    ensures OnlyExpectedDropped(Audit(dir.run), dir.inodes, expected, retained)
    ensures Accounted(dir.run, dir.inodes, expected, retained)
    ensures end == Leaked || ((end == Stopped(Committed) || end == Gone) && Audit(dir.run).placed == Some(None))
    ensures end == Gone ==> dir.entries.hidden == old(dir.entries).hidden - {q.token}
    ensures Grows(old(dir.run), dir.run)
    ensures Smooth(old(dir.run), dir.run) ==> end == Gone && dir.entries == old(dir.entries).Drop(q)
    ensures Alone(old(dir.run), dir.run) ==> dir.entries.leaf == old(dir.entries).leaf
  {
    var u, before := dir.UnlinkIfIdentity(q, id, false);
    if dir.entries != before && Audit(dir.run).dropped == {} {
      StillLinked(dir.run, before, q, id);
    } else {
      assert dir.entries == before ==> ShelteredAt(Audit(dir.run), dir.entries, q);
    }
    ghost var unlinked := dir.run;
    var failed := dir.Falters();
    StaysAccounted(unlinked, dir.run, dir.inodes, expected, retained);
    end := if u != RemoveOk then Leaked else if failed then Stopped(Committed) else Gone;
  }

  /** An unlink that drops no inode leaves it under another name. */
  lemma {:induction false} StillLinked(run: Run, before: Entries, q: Name, id: Inode)
    requires before.Of(q) == Some(id) && run.now == before.Drop(q)
    requires before.Reach() - run.now.Reach() == {}
    requires Audit(run).displaced == Some(Some(id)) && Audit(run).placed == Some(None)
    ensures (exists name :: ShelteredAt(Audit(run), run.now, name)) || Relinked(run, id)
  {
    before.Reaches(q);
    var name := run.now.ReachedBy(id);
    if name == Public {
      assert Moment(run, run);
    } else {
      assert ShelteredAt(Audit(run), run.now, name);
    }
  }

  /** A foreign step changes nothing in that account. */
  lemma {:induction false} StaysAccounted(past: Run, run: Run, inodes: seq<Node>, expected: Bytes,
      retained: Option<Inode>)
    requires Moment(past, run) && Audit(run) == Audit(past)
    requires run.now.hidden == past.now.hidden
    requires Accounted(past, inodes, expected, retained)
    ensures Accounted(run, inodes, expected, retained)
  {
    var l := Audit(past);
    if name :| ShelteredAt(l, past.now, name) {
      assert ShelteredAt(l, run.now, name);
    } else if !l.NetUnchanged() && l.dropped == {} {
      var id := l.displaced.value.value;
      var moment :| Moment(moment, past) && moment.now.leaf == Some(id) && Audit(moment).placed == Some(None);
      MomentOfMoment(moment, past, run);
    }
  }

  /** Moves an unexpected leaf back, or keeps it where it is if the name is taken again. */
  method PutBack(dir: Directory, q: Name, expected: Bytes, retained: Option<Inode>) returns (end: Departure)
    requires dir.Valid() && q.Private?
    requires dir.entries.Of(q).Some? && Audit(dir.run).displaced == Some(dir.entries.Of(q))
    requires Audit(dir.run).placed == Some(None)
    modifies dir
    ensures dir.Valid() && old(dir.inodes) <= dir.inodes
    ensures Audit(dir.run).dropped == Audit(old(dir.run)).dropped
    ensures Accounted(dir.run, dir.inodes, expected, retained)
    ensures end == Leaked || end == Kept
    ensures end == Kept ==>
      Audit(dir.run).NetUnchanged() || exists name :: ShelteredAt(Audit(dir.run), dir.entries, name)
    ensures Grows(old(dir.run), dir.run)
    ensures Smooth(old(dir.run), dir.run) && old(dir.entries).leaf.None? ==>
      dir.entries == old(dir.entries).Rename(q, Public)
    ensures end == Leaked && Alone(old(dir.run), dir.run) && old(dir.entries).leaf.None? ==> RaisedMoves(dir.run) > 0
    ensures end == Kept && Alone(old(dir.run), dir.run) && old(dir.entries).leaf.None? ==>
      dir.entries.leaf == old(dir.entries).Of(q)
  {
    var back, before := Restore(dir, q);
    assert dir.entries == before ==> ShelteredAt(Audit(dir.run), dir.entries, q);
    end := if back == Quiet || back == ConflictError then Kept else Leaked;
  }
}
