/**
 Durable append: short writes, synchronisation, verification, and the rollback that
 truncates only when every byte after the original end belongs to the append.

 A foreign process may append to the file between any two system calls.
 */
module Append {
  import opened Basics

  /** What has happened to the file since the operation began: chunks the operation or a
      foreign process appended, calls that failed, sizes taken, reads of what follows the
      original end, and truncations to it. */
  datatype Run =
    | Opened
    | Ours(past: Run, chunk: Bytes)
    | Theirs(past: Run, chunk: Bytes)
    | Faltered(past: Run)
    | Sized(past: Run)
    | Read(past: Run, seen: Bytes)
    | Cut(past: Run)

  /** What has been added to the file; a cut leaves what was added by its original end. */
  function Added(r: Run): Bytes
    decreases r, 0
  {
    match r
    case Opened => []
    case Ours(past, chunk) => Added(past) + chunk
    case Theirs(past, chunk) => Added(past) + chunk
    case Cut(past) => Early(past)
    case _ => Added(r.past)
  }

  /** The original end is taken by the first size. */
  predicate Ended(r: Run) {
    r.Sized? || (!r.Opened? && Ended(r.past))
  }

  /** What had been added by the original end. */
  function Early(r: Run): (early: Bytes)
    ensures early <= Added(r)
    decreases r, 1
  {
    if !Ended(r) then []
    else if r.Sized? && !Ended(r.past) then Added(r.past)
    else Early(r.past)
  }

  /** The bytes after the original end. */
  function After(r: Run): Bytes {
    Added(r)[|Early(r)|..]
  }

  /** What the operation has appended, and what others have. */
  function Mine(r: Run): Bytes {
    match r
    case Opened => []
    case Ours(past, chunk) => Mine(past) + chunk
    case _ => Mine(r.past)
  }

  function Alien(r: Run): Bytes {
    match r
    case Opened => []
    case Theirs(past, chunk) => Alien(past) + chunk
    case _ => Alien(r.past)
  }

  /** The run up to its latest truncation. */
  function CutFrom(r: Run): Option<Run> {
    match r
    case Opened => None
    case Cut(past) => Some(past)
    case _ => CutFrom(r.past)
  }

  /** Nothing is written or cut before the original end is known, and a read shows the bytes
      that are there. */
  predicate Lawful(r: Run) {
    match r
    case Opened => true
    case Ours(past, _) => Lawful(past) && Ended(past)
    case Cut(past) => Lawful(past) && Ended(past)
    case Read(past, seen) => Lawful(past) && seen <= After(past)
    case _ => Lawful(r.past)
  }

  /** How many calls have failed. */
  function Faults(r: Run): nat {
    match r
    case Opened => 0
    case Faltered(past) => Faults(past) + 1
    case _ => Faults(r.past)
  }

  /** A record only gains failures and foreign bytes. */
  predicate Grows(past: Run, r: Run) {
    Faults(past) <= Faults(r) && Alien(past) <= Alien(r)
  }

  /** No call has failed since, and nothing foreign was appended. */
  predicate Smooth(past: Run, r: Run) {
    Faults(r) == Faults(past) && Alien(r) == Alien(past)
  }

  /** No call has failed and nothing foreign was appended. */
  predicate Calm(r: Run) {
    Faults(r) == 0 && Alien(r) == []
  }

  /** What was there when the size was last taken, if nothing was written since. */
  function Counted(r: Run): Option<Bytes> {
    match r
    case Theirs(past, _) => Counted(past)
    case Faltered(past) => Counted(past)
    case Read(past, _) => Counted(past)
    case Sized(past) => Some(After(r))
    case _ => None
  }

  /** What the last read compared, if it read all that the size taken before it counted. */
  function Compared(r: Run): Option<Bytes> {
    match r
    case Theirs(past, _) => Compared(past)
    case Faltered(past) => Compared(past)
    case Read(past, seen) => if Counted(past) == Some(seen) then Some(seen) else None
    case _ => None
  }

  /** The bytes that arrived too late to take part in the comparison. */
  function Late(r: Run): Bytes
    requires Lawful(r) && Compared(r).Some?
  {
    ComparedIsPrefix(r);
    After(r)[|Compared(r).value|..]
  }

  /** Appending adds to what follows the original end, once that is known. */
  lemma Adds(past: Run, chunk: Bytes)
    ensures After(past) <= After(Theirs(past, chunk))
    ensures Early(Theirs(past, chunk)) == Early(past)
  {
    assert Early(Theirs(past, chunk)) == Early(past);
    Dropped(Added(past), chunk, |Early(past)|);
  }

  lemma Dropped(a: Bytes, b: Bytes, n: nat)
    requires n <= |a|
    ensures (a + b)[n..] == a[n..] + b
  {
  }

  lemma {:induction false} ComparedIsPrefix(r: Run)
    requires Lawful(r)
    ensures Compared(r).Some? ==> Compared(r).value <= After(r)
  {
    match r
    case Opened =>
    case Theirs(past, chunk) =>
      ComparedIsPrefix(past);
      Adds(past, chunk);
    case Faltered(past) => ComparedIsPrefix(past);
    case _ =>
  }

  /** Everything there was found to be a prefix of the content before anything is cut. */
  predicate Examined(r: Run, content: Bytes) {
    Lawful(r) && Compared(r).Some? && Compared(r).value <= content
  }

  lemma {:induction false} NothingBeforeTheEnd(r: Run)
    requires Lawful(r) && !Ended(r)
    ensures Mine(r) == []
  {
    match r
    case Opened =>
    case Theirs(past, _) => NothingBeforeTheEnd(past);
    case Faltered(past) => NothingBeforeTheEnd(past);
    case Read(past, _) => NothingBeforeTheEnd(past);
    case _ =>
  }

  /** With nothing foreign, what is added is what the operation wrote. */
  lemma {:induction false} AloneAddsMine(r: Run)
    requires Lawful(r) && Alien(r) == [] && CutFrom(r).None?
    ensures Added(r) == Mine(r) && Early(r) == []
  {
    match r
    case Opened =>
    case Ours(past, _) => AloneAddsMine(past);
    case Theirs(past, chunk) =>
      assert Alien(r) == Alien(past) + chunk && chunk == [];
      AloneAddsMine(past);
    case Faltered(past) => AloneAddsMine(past);
    case Sized(past) =>
      AloneAddsMine(past);
      if !Ended(past) { NothingBeforeTheEnd(past); }
    case Read(past, _) => AloneAddsMine(past);
    case _ =>
  }

  /** What is cut after a comparison is a prefix of the content exactly when the bytes that
      came too late for it continue the compared prefix. */
  lemma {:induction false} LossIsLate(r: Run, content: Bytes)
    requires Examined(r, content)
    ensures After(r) <= content <==> Late(r) <= content[|Compared(r).value|..]
  {
    ComparedIsPrefix(r);
    var k := |Compared(r).value|;
    assert After(r) == content[..k] + Late(r) && content == content[..k] + content[k..];
    if Late(r) <= content[k..] {
      assert content[k..][..|Late(r)|] == content[k..|After(r)|];
    }
  }

  /** One byte is written, counted and read back. */
  lemma HalfWritten() returns (read: Run)
    ensures Lawful(read) && Ended(read) && Early(read) == [] && After(read) == [1]
    ensures Compared(read) == Some([1]) && Alien(read) == [] && Mine(read) == [1]
  {
    var sized := Sized(Opened);
    assert Ended(sized) && Early(sized) == [] && Lawful(sized);
    var written := Ours(sized, [1]);
    assert Early(written) == [] && Added(written) == [1] && Lawful(written) && Ended(written);
    var counted := Sized(written);
    assert Early(counted) == [] && After(counted) == [1] && Counted(counted) == Some([1]);
    read := Read(counted, [1]);
    assert Mine(written) == [1] && Alien(written) == [];
  }

  /** One foreign byte that arrives after the comparison is lost although it is not part of
      the content: half of the content is written, counted, read back and found to be its
      own, the byte arrives, and the file is cut back to its original end. */
  lemma LateByteIsLost() returns (content: Bytes, r: Run)
    ensures Lawful(r) && r.Cut? && Examined(r.past, content) && Mine(r) <= content
    ensures Late(r.past) == Alien(r) == [9] && 9 !in content
    ensures After(r) == [] && !(After(r.past) <= content)
  {
    content := [1, 2];
    var read := HalfWritten();
    var late := Theirs(read, [9]);
    Adds(read, [9]);
    assert After(late) == [1, 9] && Lawful(late) && Ended(late) && Early(late) == [];
    r := Cut(late);
    assert After(late)[1] == 9 && After(late)[1..] == [9];
    assert Early(r) == Added(r) == [];
  }

  datatype Ending = Returned | Committed | Restored | Unknown

  class File {
    var bytes: Bytes
    /** The bytes when the operation began, and what has happened since. */
    ghost const base: Bytes
    ghost var run: Run

    ghost predicate Valid()
      reads this
    {
      Lawful(run) && bytes == base + Added(run)
    }

    /** The file as it was at its original end. */
    ghost function Original(): (original: Bytes)
      reads this
      requires Valid()
      ensures bytes == original + After(run)
    {
      base + Early(run)
    }

    /** Opens the file for one operation; the record starts here and is only ever added to. */
    constructor (content: Bytes)
      ensures Valid() && bytes == base == content && run == Opened
    {
      bytes, base, run := content, content, Opened;
    }

    /** A foreign process may append, and then the next call may fail. */
    method Falters() returns (failed: bool)
      requires Valid()
      modifies this
      ensures Valid() && Early(run) == Early(old(run)) && Ended(run) == Ended(old(run))
      ensures Compared(run) == Compared(old(run)) && Counted(run) == Counted(old(run))
      ensures Mine(run) == Mine(old(run)) && CutFrom(run) == CutFrom(old(run))
      ensures After(old(run)) <= After(run)
      ensures failed ==> Faults(old(run)) < Faults(run)
      ensures Grows(old(run), run)
      ensures Alien(run) == Alien(old(run)) ==> Added(run) == Added(old(run))
    {
      var foreign: Bytes := *;
      Adds(run, foreign);
      bytes := bytes + foreign;
      run := Theirs(run, foreign);
      failed := *;
      if failed {
        run := Faltered(run);
      }
    }

    /** Takes the size: the first time, that of the original file. */
    method Size() returns (failed: bool, size: nat)
      requires Valid()
      modifies this
      ensures Valid() && (old(Ended(run)) ==> Ended(run) && Early(run) == Early(old(run)))
      ensures !failed ==> Ended(run) && Counted(run) == Some(After(run)) && size == |bytes|
      ensures !failed && !old(Ended(run)) ==> Early(run) == Added(run) && After(run) == []
      ensures failed ==> Ended(run) == old(Ended(run)) && Faults(old(run)) < Faults(run)
      ensures Mine(run) == Mine(old(run)) && CutFrom(run) == CutFrom(old(run))
      ensures old(Ended(run)) ==> After(old(run)) <= After(run)
      ensures Grows(old(run), run)
      ensures Alien(run) == Alien(old(run)) ==> Added(run) == Added(old(run))
    {
      failed := Falters();
      size := 0;
      if !failed {
        size := |bytes|;
        run := Sized(run);
      }
    }

    /** Reads `n` bytes after the original end, or as many as there are. */
    method ReadBack(originalSize: nat, n: nat) returns (failed: bool, seen: Bytes)
      requires Valid() && Ended(run) && originalSize == |Original()|
      modifies this
      ensures Valid() && Ended(run) && Early(run) == Early(old(run))
      ensures !failed ==>
        && seen == Take(After(run), n)
        && (Counted(old(run)) == Some(seen) ==> Compared(run) == Some(seen))
      ensures failed ==> Faults(old(run)) < Faults(run)
      ensures Mine(run) == Mine(old(run)) && CutFrom(run) == CutFrom(old(run))
      ensures After(old(run)) <= After(run)
      ensures Grows(old(run), run)
      ensures Alien(run) == Alien(old(run)) ==> Added(run) == Added(old(run))
    {
      failed := Falters();
      seen := [];
      if !failed {
        assert bytes[originalSize..] == After(run);
        seen := Take(bytes[originalSize..], n);
        run := Read(run, seen);
      }
    }

    /** The write itself. */
    method WriteNow(chunk: Bytes)
      requires Valid() && Ended(run) && CutFrom(run).None?
      modifies this
      ensures Valid() && Ended(run) && Early(run) == Early(old(run)) && CutFrom(run).None?
      ensures Mine(run) == Mine(old(run)) + chunk
      ensures Smooth(old(run), run)
    {
      assert Early(Ours(run, chunk)) == Early(run);
      bytes := bytes + chunk;
      run := Ours(run, chunk);
    }

    /** One write call: appends some prefix of the content, and reports its length or
        fails, before or after appending. */
    method Write(content: Bytes) returns (failed: bool, written: nat)
      requires Valid() && Ended(run) && CutFrom(run).None?
      modifies this
      ensures Valid() && Ended(run) && Early(run) == Early(old(run)) && CutFrom(run).None?
      ensures exists k | 0 <= k <= |content| :: Mine(run) == Mine(old(run)) + content[..k]
      ensures !failed ==> 0 < written <= |content| && Mine(run) == Mine(old(run)) + content[..written]
      ensures failed && content != [] ==> Faults(old(run)) < Faults(run)
      ensures Grows(old(run), run)
    {
      failed := Falters();
      written := 0;
      if failed || content == [] {
        assert Mine(run) == Mine(old(run)) + content[..0];
        failed := true;
      } else {
        var k: int := *;
        written := if 0 <= k <= |content| then k else |content|;
        WriteNow(content[..written]);
        failed := *;
        failed := failed || written == 0;
        if failed {
          run := Faltered(run);
        }
        assert Mine(run) == Mine(old(run)) + content[..written];
      }
    }

    /** Repeats short writes until the whole content is written. */
    method WriteAll(content: Bytes) returns (failed: bool)
      requires Valid() && Ended(run) && CutFrom(run).None? && Mine(run) == []
      modifies this
      ensures Valid() && Ended(run) && Early(run) == Early(old(run)) && CutFrom(run).None?
      ensures Mine(run) <= content
      ensures !failed ==> Mine(run) == content
      ensures failed ==> Faults(old(run)) < Faults(run)
      ensures Grows(old(run), run)
    {
      var offset := 0;
      while offset < |content|
        invariant 0 <= offset <= |content|
        invariant Valid() && Ended(run) && Early(run) == Early(old(run)) && CutFrom(run).None?
        invariant Mine(run) == content[..offset]
        invariant Grows(old(run), run)
      {
        var written: nat;
        failed, written := Write(content[offset..]);
        if failed {
          ghost var k :| 0 <= k <= |content[offset..]| && Mine(run) == content[..offset] + content[offset..][..k];
          assert Mine(run) == content[..offset + k];
          return;
        }
        assert content[..offset] + content[offset..][..written] == content[..offset + written];
        offset := offset + written;
      }
      failed := false;
    }

    /** Cuts the file back to its original end, once, and checks the size it then has. */
    method Truncate(originalSize: nat) returns (done: bool)
      requires Valid() && Ended(run) && CutFrom(run).None? && originalSize == |Original()|
      modifies this
      ensures Valid() && Ended(run) && Early(run) == Early(old(run))
      ensures CutFrom(run).Some? ==>
        && Compared(CutFrom(run).value) == Compared(old(run)) && After(old(run)) <= After(CutFrom(run).value)
        && Lawful(CutFrom(run).value)
      ensures done ==> bytes == Original() && CutFrom(run).Some?
      ensures !done ==> !Smooth(old(run), run)
      ensures Mine(run) == Mine(old(run))
      ensures Grows(old(run), run)
    {
      done := false;
      var failed := Falters();
      if !failed {
        ghost var cut := run;
        bytes := bytes[..originalSize];
        run := Cut(run);
        assert CutFrom(run) == Some(cut) && After(run) == [];
        done := StillAt(originalSize);
      }
    }

    /** Synchronises and takes the size again. */
    method StillAt(originalSize: nat) returns (same: bool)
      requires Valid() && Ended(run) && originalSize == |Original()| && After(run) == []
      modifies this
      ensures Valid() && Ended(run) && Early(run) == Early(old(run))
      ensures CutFrom(run) == CutFrom(old(run)) && Mine(run) == Mine(old(run))
      ensures same ==> bytes == Original()
      ensures !same ==> !Smooth(old(run), run)
      ensures Grows(old(run), run)
    {
      same := false;
      var failed := Falters();
      if !failed {
        var size;
        failed, size := Size();
        same := !failed && size == originalSize;
      }
    }

    /** Truncates to the original end if everything after it is a prefix of the content:
        - nothing is cut but after such a comparison, which covered whatever was there when
          the rollback began;
        - so nothing is cut when that was no prefix of the content;
        - with no fault and nothing foreign the file is restored when it was. */
    method RestoreExact(originalSize: nat, content: Bytes) returns (restored: bool)
      requires Valid() && Ended(run) && CutFrom(run).None? && originalSize == |Original()|
      modifies this
      ensures Valid() && Ended(run) && Early(run) == Early(old(run))
      ensures CutFrom(run).Some? ==>
        Examined(CutFrom(run).value, content) && After(old(run)) <= Compared(CutFrom(run).value).value
      ensures !(After(old(run)) <= content) ==> CutFrom(run).None?
      ensures restored ==> bytes == Original() && CutFrom(run).Some?
      ensures Mine(run) == Mine(old(run))
      ensures Grows(old(run), run)
      ensures Smooth(old(run), run) && After(old(run)) <= content ==> restored
    {
      restored := false;
      var failed, size := Size();
      if failed || size < originalSize || size > originalSize + |content| { return; }
      ghost var counted := After(run);
      var appended := size - originalSize;
      var seen;
      failed, seen := ReadBack(originalSize, appended);
      if failed { return; }
      assert seen == counted && Compared(run) == Some(seen);
      if seen != content[..appended] { return; }
      assert Examined(run, content);
      restored := Truncate(originalSize);
    }

    /** The size is what it should be. */
    method HasSize(n: nat) returns (failed: bool)
      requires Valid() && Ended(run) && CutFrom(run).None?
      modifies this
      ensures Valid() && Ended(run) && Early(run) == Early(old(run)) && CutFrom(run).None?
      ensures Mine(run) == Mine(old(run))
      ensures !failed ==> |bytes| == n
      ensures Grows(old(run), run)
      ensures failed ==> Faults(old(run)) < Faults(run) || |bytes| != n
    {
      var size;
      failed, size := Size();
      failed := failed || size != n;
    }

    /** What follows the original end is the content. */
    method ReadsAs(originalSize: nat, content: Bytes) returns (failed: bool)
      requires Valid() && Ended(run) && CutFrom(run).None? && originalSize == |Original()|
      modifies this
      ensures Valid() && Ended(run) && Early(run) == Early(old(run)) && CutFrom(run).None?
      ensures Mine(run) == Mine(old(run))
      ensures !failed ==> Original() + content <= bytes
      ensures Grows(old(run), run)
      ensures failed ==> Faults(old(run)) < Faults(run) || !(content <= After(run))
    {
      var seen;
      failed, seen := ReadBack(originalSize, |content|);
      failed := failed || seen != content;
    }

    /** Synchronises, then checks the new size and reads the appended bytes back. */
    method VerifyAppend(originalSize: nat, content: Bytes) returns (failed: bool)
      requires Valid() && Ended(run) && CutFrom(run).None? && originalSize == |Original()| && Mine(run) == content
      modifies this
      ensures Valid() && Ended(run) && Early(run) == Early(old(run)) && CutFrom(run).None?
      ensures Mine(run) == content
      ensures !failed ==> Original() + content <= bytes
      ensures failed ==> Faults(old(run)) < Faults(run) || Alien(run) != []
      ensures Grows(old(run), run)
      ensures !failed && Alien(run) == [] ==> bytes == Original() + content
    {
      failed := Falters();
      if !failed {
        failed := HasSize(originalSize + |content|);
        if !failed {
          failed := ReadsAs(originalSize, content);
          if !failed {
            failed := Falters();
          }
        }
      }
      if Alien(run) == [] { AloneAddsMine(run); }
    }

    /** Everything that can still fail before the append is known to be in place. */
    method WriteVerified(originalSize: nat, content: Bytes) returns (failed: bool)
      requires Valid() && Ended(run) && CutFrom(run).None? && Mine(run) == [] && After(run) == []
      requires originalSize == |Original()|
      modifies this
      ensures Valid() && Ended(run) && Early(run) == Early(old(run)) && CutFrom(run).None?
      ensures Mine(run) <= content
      ensures !failed ==> Original() + content <= bytes && Mine(run) == content
      ensures failed ==> Faults(old(run)) < Faults(run) || Alien(run) != []
      ensures Grows(old(run), run)
      ensures !failed && Alien(run) == [] ==> bytes == Original() + content
    {
      failed := WriteAll(content);
      if !failed {
        failed := VerifyAppend(originalSize, content);
      }
    }

    /** The handler: restores the file if everything after its original end is a prefix of the
        content. */
    method RollBack(originalSize: nat, content: Bytes) returns (end: Ending)
      requires Valid() && Ended(run) && CutFrom(run).None? && originalSize == |Original()|
      modifies this
      ensures Valid() && Ended(run) && Early(run) == Early(old(run))
      ensures end == Restored || end == Unknown
      ensures end == Restored ==> bytes == Original()
      ensures Mine(run) == Mine(old(run))
      ensures CutFrom(run).Some? ==>
        var cut := CutFrom(run).value;
        && Examined(cut, content)
        && (After(cut) <= content <==> Late(cut) <= content[|Compared(cut).value|..])
      ensures Grows(old(run), run)
      ensures Smooth(old(run), run) && After(old(run)) <= content ==> end == Restored
    {
      var restored := RestoreExact(originalSize, content);
      end := if restored then Restored else Unknown;
      if CutFrom(run).Some? {
        LossIsLate(CutFrom(run).value, content);
      }
    }

    /** Appends the content durably, and says how that ended, `Original` being the file when
        its size was first taken, which extends what it was when the operation began:
        - `Returned` and `Committed`: the file is that, followed by the whole content, and
          nothing was cut;
        - `Restored`: the file is exactly that, or its size was never taken and the operation
          wrote nothing; what it had written was a prefix of the content;
        - nothing is cut but after everything there was counted, read and found to be a
          prefix of the content, so only bytes of the content are lost exactly when those
          that arrived after that continue it; otherwise nothing that was there is lost;
        - `Unknown` means that a second call failed or foreign bytes arrived: with at most one
          fault and nothing foreign the content is appended, or the file is what it was;
        - with no fault and nothing foreign it appends the content. */
    method AppendDurable(content: Bytes) returns (end: Ending)
      requires Valid() && run == Opened
      modifies this
      ensures Valid() && base == old(bytes) && old(bytes) <= Original() && Mine(run) <= content
      ensures CutFrom(run).None? ==> bytes == old(bytes) + Added(run)
      ensures end == Returned || end == Committed ==>
        Ended(run) && CutFrom(run).None? && Original() + content <= bytes && Mine(run) == content
      ensures end == Restored ==>
        if Ended(run) then bytes == Original() else Mine(run) == [] && CutFrom(run).None?
      ensures CutFrom(run).Some? ==>
        var cut := CutFrom(run).value;
        && Examined(cut, content)
        && (After(cut) <= content <==> Late(cut) <= content[|Compared(cut).value|..])
      ensures Faults(run) <= 1 && Alien(run) == [] ==>
        && end != Unknown && bytes == if end == Restored then old(bytes) else old(bytes) + content
      ensures Calm(run) ==> end == Returned && bytes == old(bytes) + content
    {
      var failed, originalSize := Size();
      if failed {
        NothingBeforeTheEnd(run);
        if Alien(run) == [] { AloneAddsMine(run); }
        end := Restored;
      } else {
        failed := WriteVerified(originalSize, content);
        if Alien(run) == [] { AloneAddsMine(run); }
        if !failed {
          failed := Falters();
          end := if failed then Committed else Returned;
        } else {
          end := RollBack(originalSize, content);
        }
      }
    }
  }
}
