/**
 One pinned parent directory as the exact-leaf protocols of atomic.py see it: a
 table of names, a table of inodes whose bytes never change, and the record of
 every step taken since the current operation began.

 A foreign process may act between any two system calls, but only on the public
 name: the stage, quarantine and rollback names are unguessable.  A system call
 may fail before its effect, and the no-replace move and the private unlink may
 also fail after it, because both synchronise the directory afterwards.
 */
module Directories {
  import opened Basics

  type Inode = nat

  datatype Node = Regular(bytes: Bytes) | Special

  datatype Name = Public | Private(token: nat)

  /** The public leaf, which foreign processes may change, and the private names, which
      they cannot guess. */
  datatype Entries = Entries(leaf: Option<Inode>, hidden: map<nat, Inode>) {

    function Of(name: Name): Option<Inode> {
      match name
      case Public => leaf
      case Private(t) => if t in hidden then Some(hidden[t]) else None
    }

    function Put(name: Name, inode: Inode): Entries {
      match name
      case Public => this.(leaf := Some(inode))
      case Private(t) => this.(hidden := hidden[t := inode])
    }

    function Drop(name: Name): Entries {
      match name
      case Public => this.(leaf := None)
      case Private(t) => this.(hidden := hidden - {t})
    }

    function Rename(source: Name, target: Name): Entries
      requires Of(source).Some?
    {
      Drop(source).Put(target, Of(source).value)
    }

    function Swap(left: Name, right: Name): Entries
      requires Of(left).Some? && Of(right).Some?
    {
      Put(left, Of(right).value).Put(right, Of(left).value)
    }

    /** Every inode some name refers to. */
    function Reach(): set<Inode> {
      hidden.Values + (if leaf.Some? then {leaf.value} else {})
    }

    lemma Reaches(name: Name)
      requires Of(name).Some?
      ensures Of(name).value in Reach()
    {
      if name.Private? { assert hidden[name.token] in hidden.Values; }
    }

    lemma ReachedBy(inode: Inode) returns (name: Name)
      requires inode in Reach()
      ensures Of(name) == Some(inode)
    {
      if leaf == Some(inode) { return Public; }
      var t :| t in hidden && hidden[t] == inode;
      name := Private(t);
    }

    lemma RenameKeepsInodes(source: Name, target: Name)
      requires source != target && Of(source).Some? && Of(target).None?
      ensures Rename(source, target).Reach() == Reach()
    {
      var e := Rename(source, target);
      forall i | i in Reach() ensures i in e.Reach() {
        var n := ReachedBy(i);
        e.Reaches(if n == source then target else n);
      }
      forall i | i in e.Reach() ensures i in Reach() {
        var n := e.ReachedBy(i);
        Reaches(if n == target then source else n);
      }
    }

    lemma SwapKeepsInodes(left: Name, right: Name)
      requires left != right && Of(left).Some? && Of(right).Some?
      ensures Swap(left, right).Reach() == Reach()
    {
      var e := Swap(left, right);
      forall i | i in Reach() ensures i in e.Reach() {
        var n := ReachedBy(i);
        e.Reaches(if n == left then right else if n == right then left else n);
      }
      forall i | i in e.Reach() ensures i in Reach() {
        var n := e.ReachedBy(i);
        Reaches(if n == left then right else if n == right then left else n);
      }
    }

    lemma DropLosesOnlyTheLeaf(name: Name)
      requires Of(name).Some?
      ensures Reach() - Drop(name).Reach() <= {Of(name).value}
    {
      forall i | i in Reach() && i != Of(name).value ensures i in Drop(name).Reach() {
        var n := ReachedBy(i);
        Drop(name).Reaches(n);
      }
    }

    lemma DropAddsNothing(name: Name)
      ensures Drop(name).Reach() <= Reach()
    {
      var e := Drop(name);
      forall i | i in e.Reach() ensures i in Reach() {
        var n := e.ReachedBy(i);
        Reaches(n);
      }
    }

    /** A new inode is all that putting it on a free name adds. */
    lemma PutReaches(name: Name, inode: Inode)
      requires Of(name).None? && inode !in Reach()
      ensures Put(name, inode).Reach() - Reach() == {inode}
    {
      var e := Put(name, inode);
      e.Reaches(name);
      forall i | i in e.Reach() && i != inode ensures i in Reach() {
        var n := e.ReachedBy(i);
        Reaches(n);
      }
    }

    lemma PutOnFreeNameLosesNothing(name: Name, inode: Inode)
      requires Of(name).None?
      ensures Reach() <= Put(name, inode).Reach()
    {
      forall i | i in Reach() ensures i in Put(name, inode).Reach() {
        var n := ReachedBy(i);
        Put(name, inode).Reaches(n);
      }
    }
  }

  /** Every name refers to an inode there is, and private names are numbered below `token`. */
  ghost predicate InUse(d: Entries, inodes: seq<Node>, token: nat) {
    && (d.leaf.Some? ==> d.leaf.value < |inodes|)
    && (forall t <- d.hidden :: d.hidden[t] < |inodes| && t < token)
  }

  // ----------------------------------------------------------------------
  // Runs: the steps since an operation began
  // ----------------------------------------------------------------------

  /** A foreign step; a step of the operation, or an exchange; a completed read of the public
      leaf by it; a failure of one of its calls; a move of its own that raised, with or without effect; or a
      listing it made to find out what such a move had done. */
  datatype Step =
    | Foreign
    | Own
    | Exchanged
    | Saw
    | Faltered
    | RaisedMove(source: Name, target: Name)
    | Listed(name: Name, stat: Stat)

  /** Each step with the directory it leaves behind. */
  datatype Run = Start(now: Entries) | Then(past: Run, step: Step, now: Entries)

  /** Foreign steps leave private names alone, a raised move took effect or did not, failures,
      reads and listings change nothing, and a listing that did not fail told the truth. */
  predicate Lawful(run: Run) {
    match run
    case Start(_) => true
    case Then(past, step, now) =>
      && Lawful(past)
      && match step
         case Foreign => now.hidden == past.now.hidden
         case Own => true
         case Exchanged => true
         case Saw => now == past.now && now.leaf.Some?
         case Faltered => now == past.now
         case RaisedMove(source, target) =>
           || now == past.now
           || (past.now.Of(source).Some? && past.now.Of(target).None? && now == past.now.Rename(source, target))
         case Listed(name, stat) => now == past.now && Truthful(now, name, stat)
  }

  /** How many calls have failed. */
  function Faults(run: Run): nat {
    match run
    case Start(_) => 0
    case Then(past, step, _) => Faults(past) + if step.Faltered? || step.RaisedMove? then 1 else 0
  }

  /** How many of them were moves, which may have taken effect. */
  function RaisedMoves(run: Run): nat {
    match run
    case Start(_) => 0
    case Then(past, step, _) => RaisedMoves(past) + if step.RaisedMove? then 1 else 0
  }

  /** How many foreign steps there were. */
  function Intrusions(run: Run): nat {
    match run
    case Start(_) => 0
    case Then(past, step, _) => Intrusions(past) + if step.Foreign? then 1 else 0
  }

  /** No call has failed and nothing foreign has happened. */
  predicate Calm(run: Run) {
    Faults(run) == 0 && Intrusions(run) == 0
  }

  /** At most one call has failed and nothing foreign has happened. */
  predicate OneFault(run: Run) {
    Faults(run) <= 1 && Intrusions(run) == 0
  }

  /** A record only gains failures and foreign steps. */
  predicate Grows(past: Run, run: Run) {
    && Faults(past) <= Faults(run) && RaisedMoves(past) <= RaisedMoves(run)
    && Intrusions(past) <= Intrusions(run)
  }

  /** Nothing foreign has happened since. */
  predicate Alone(past: Run, run: Run) {
    Intrusions(run) == Intrusions(past)
  }

  /** Nor has a call failed. */
  predicate Smooth(past: Run, run: Run) {
    Alone(past, run) && Faults(run) == Faults(past)
  }

  /** What the operation knows of a raised move that put an inode at the public name: nothing
      yet; that the inode is there; or, once a listing failed to show the move, a wrong idea.
      `Told` when there is nothing to find out. */
  datatype Notice = Told | Untold(source: Name, inode: Inode) | HalfTold(source: Name, inode: Inode) | Missed

  /** A move is noticed by listing its inode at the public name, and then its source as
      absent. */
  function Heard(notice: Notice, name: Name, stat: Stat): Notice {
    match notice
    case Untold(source, inode) =>
      if name.Private? then notice else if stat == Found(inode) then HalfTold(source, inode) else Missed
    case HalfTold(source, inode) =>
      if name != source then notice else if stat.Absent? then Told else Missed
    case _ => notice
  }

  /** What the operation's own steps did to the directory.
      - `displaced`: what its first change of the public name found there;
      - `placed`: what its latest change of the public name left there;
      - `created`: inodes one of its steps first put under a name;
      - `dropped`: inodes one of its steps removed from every name;
      - `verified`: the inode it last read back at the public name since that change;
      - `exposed`: one of its steps left the public name absent;
      - `notice`: what it knows of its latest raised move to the public name. */
  datatype Ledger = Ledger(
    displaced: Option<Option<Inode>>,
    placed: Option<Option<Inode>>,
    created: set<Inode>,
    dropped: set<Inode>,
    verified: Option<Inode>,
    exposed: bool,
    notice: Notice)
  {
    function Change(before: Entries, after: Entries): Ledger {
      var moved := before.leaf != after.leaf;
      Ledger(
        if moved && displaced.None? then Some(before.leaf) else displaced,
        if moved then Some(after.leaf) else placed,
        created + (after.Reach() - before.Reach()),
        dropped + (before.Reach() - after.Reach()),
        if moved then None else verified,
        exposed || (before.leaf.Some? && after.leaf.None?),
        notice)
    }

    function Note(step: Step, before: Entries, after: Entries): Ledger {
      match step
      case Saw => this.(verified := after.leaf)
      case RaisedMove(source, Public) =>
        if before.leaf != after.leaf && after.leaf.Some? then this.(notice := Untold(source, after.leaf.value))
          else this
      case Listed(name, stat) => this.(notice := Heard(notice, name, stat))
      case _ => this
    }

    /** The operation's changes of the public name cancel out: it made none, or the
        last one put back exactly what the first one found. */
    predicate NetUnchanged() {
      placed == displaced
    }
  }

  const BLANK := Ledger(None, None, {}, {}, None, false, Told)

  function Audit(run: Run): Ledger {
    match run
    case Start(_) => BLANK
    case Then(past, Foreign, _) => Audit(past)
    case Then(past, Faltered, _) => Audit(past)
    case Then(past, step, now) => Audit(past).Change(past.now, now).Note(step, past.now, now)
  }

  function Troubles(run: Run): nat {
    Faults(run) + Intrusions(run)
  }

  predicate HasExchanged(run: Run) {
    run.Then? && (run.step.Exchanged? || HasExchanged(run.past))
  }

  /** The operation's first exchange: the failures and foreign steps until then, the inode it
      had last read at the public name, and what had been displaced there once it was done. */
  datatype Swap = Swap(troubles: nat, seen: Option<Inode>, displaced: Option<Option<Inode>>)

  function FirstSwap(run: Run): Swap
    requires HasExchanged(run)
  {
    if HasExchanged(run.past) then FirstSwap(run.past)
    else Swap(Troubles(run), Audit(run.past).verified, Audit(run).displaced)
  }

  lemma {:induction false} SwapWasBefore(run: Run)
    requires HasExchanged(run)
    ensures FirstSwap(run).troubles <= Troubles(run)
  {
    if HasExchanged(run.past) {
      SwapWasBefore(run.past);
    }
  }

  /** What the record says of the first exchange is the same as before. */
  predicate KeepsSwap(past: Run, run: Run) {
    && (HasExchanged(run) <==> HasExchanged(past))
    && (HasExchanged(past) ==> FirstSwap(run) == FirstSwap(past))
  }

  function Origin(run: Run): Entries {
    match run
    case Start(d) => d
    case Then(past, _, _) => Origin(past)
  }

  /** A state the run passed through; a crash can strike at any of them. */
  predicate Moment(moment: Run, run: Run) {
    moment == run || (run.Then? && Moment(moment, run.past))
  }

  lemma {:induction false} MomentOfMoment(moment: Run, middle: Run, run: Run)
    requires Moment(moment, middle) && Moment(middle, run)
    ensures Moment(moment, run)
  {
    if middle != run {
      MomentOfMoment(moment, middle, run.past);
    }
  }

  /** Some foreign step of the run removed the inode from the directory. */
  predicate ForeignDrops(run: Run, inode: Inode) {
    match run
    case Start(_) => false
    case Then(past, step, now) =>
      ForeignDrops(past, inode) || (step.Foreign? && inode in past.now.Reach() && inode !in now.Reach())
  }

  /** Some foreign step left the public name absent. */
  predicate ForeignRemoves(run: Run) {
    match run
    case Start(_) => false
    case Then(past, step, now) => ForeignRemoves(past) || (step.Foreign? && now.leaf.None?)
  }

  /** What `dropped` means for the directory: whatever was reachable at some moment of the
      run, and that no own step drops and no foreign step removes, is reachable at every
      moment after, so at every crash point. */
  lemma {:induction false} Survival(run: Run, crash: Run, moment: Run, inode: Inode)
    requires Lawful(run) && Moment(crash, run) && Moment(moment, crash) && inode in moment.now.Reach()
    requires inode !in Audit(run).dropped && !ForeignDrops(run, inode)
    ensures inode in crash.now.Reach()
  {
    if crash != run {
      Survival(run.past, crash, moment, inode);
    } else if moment != run {
      Survival(run.past, run.past, moment, inode);
    }
  }

  /** Whatever was in the directory when the run began, but for some inodes, is there at every
      moment unless a foreign process removes it. */
  ghost predicate Preserves(run: Run, except: set<Inode>) {
    forall crash, inode |
      Moment(crash, run) && inode in Origin(run).Reach() && inode !in except && !ForeignDrops(run, inode) ::
      inode in crash.now.Reach()
  }

  lemma {:induction false} PreservesAllButDropped(run: Run)
    requires Lawful(run)
    ensures Preserves(run, Audit(run).dropped)
  {
    forall crash, inode |
      && Moment(crash, run) && inode in Origin(run).Reach() && inode !in Audit(run).dropped
      && !ForeignDrops(run, inode)
      ensures inode in crash.now.Reach()
    {
      BeganAtOrigin(run, crash);
      Survival(run, crash, Start(Origin(run)), inode);
    }
  }

  /** When all it drops is newer than the directory it began with, a run preserves that
      directory. */
  lemma {:induction false} DropsOnlyNew(run: Run, inodes: seq<Node>, token: nat, staged: Inode)
    requires Lawful(run) && InUse(Origin(run), inodes, token)
    requires |inodes| <= staged && Audit(run).dropped <= {staged}
    ensures Preserves(run, {})
  {
    PreservesAllButDropped(run);
    forall inode | inode in Origin(run).Reach() ensures inode < |inodes| {
      var name := Origin(run).ReachedBy(inode);
    }
  }

  lemma {:induction false} BeganAtOrigin(run: Run, moment: Run)
    requires Moment(moment, run)
    ensures Moment(Start(Origin(run)), moment)
  {
    match run
    case Start(_) =>
    case Then(past, _, _) =>
      BeganAtOrigin(past, if moment == run then past else moment);
  }

  /** What `displaced` means: it was at the public name at some moment. */
  lemma {:induction false} DisplacedWasThere(run: Run, prior: Inode) returns (moment: Run)
    requires Audit(run).displaced == Some(Some(prior))
    ensures Moment(moment, run) && moment.now.leaf == Some(prior)
  {
    if Audit(run.past).displaced == Audit(run).displaced {
      moment := DisplacedWasThere(run.past, prior);
    } else {
      moment := run.past;
      assert Moment(moment, run.past);
    }
  }

  /** A displaced leaf that was not dropped is still in the directory, unless a foreign
      process itself removed it. */
  lemma DisplacedLeafSurvives(run: Run, prior: Inode)
    requires Lawful(run) && Audit(run).displaced == Some(Some(prior))
    requires prior !in Audit(run).dropped && !ForeignDrops(run, prior)
    ensures prior in run.now.Reach()
  {
    var moment := DisplacedWasThere(run, prior);
    moment.now.Reaches(Public);
    assert Moment(run, run);
    Survival(run, run, moment, prior);
  }

  /** What `verified` means: at some moment since the operation's latest change of the
      public name, the inode was there. */
  lemma {:induction false} VerifiedWasThere(run: Run, inode: Inode) returns (moment: Run)
    requires Audit(run).verified == Some(inode)
    ensures Moment(moment, run)
    ensures moment.now.leaf == Some(inode) && Audit(moment).placed == Audit(run).placed
  {
    if run.step == Saw {
      moment := run;
    } else {
      moment := VerifiedWasThere(run.past, inode);
    }
  }

  /** The public name is present at every moment of the run, so at every crash point. */
  ghost predicate NeverAbsent(run: Run) {
    forall moment | Moment(moment, run) :: moment.now.leaf.Some?
  }

  /** What `exposed` means: unless a foreign process removes the leaf, a public name that was
      present is never absent. */
  lemma {:induction false} AlwaysPresent(run: Run)
    requires Lawful(run) && !Audit(run).exposed && !ForeignRemoves(run)
    requires Origin(run).leaf.Some?
    ensures NeverAbsent(run)
  {
    match run
    case Start(_) =>
    case Then(past, _, _) =>
      AlwaysPresent(past);
      assert Moment(past, past) && past.now.leaf.Some?;
  }

  /** What a record shows of every crash point: everything that was there when it began, but
      for what its own steps dropped; and the leaf, if no own step exposed its absence. */
  lemma {:induction false} CrashSafety(run: Run, inodes: seq<Node>, token: nat, staged: Inode)
    requires Lawful(run) && InUse(Origin(run), inodes, token) && |inodes| <= staged
    ensures Preserves(run, Audit(run).dropped)
    ensures Audit(run).dropped <= {staged} ==> Preserves(run, {})
    ensures Origin(run).leaf.Some? && !Audit(run).exposed && !ForeignRemoves(run) ==> NeverAbsent(run)
  {
    PreservesAllButDropped(run);
    if Audit(run).dropped <= {staged} {
      DropsOnlyNew(run, inodes, token, staged);
    }
    if Origin(run).leaf.Some? && !Audit(run).exposed && !ForeignRemoves(run) {
      AlwaysPresent(run);
    }
  }

  // ----------------------------------------------------------------------
  // System calls
  // ----------------------------------------------------------------------

  datatype Stat = Found(inode: Inode) | Absent | StatFailed

  /** A listing that did not fail told the truth about the directory. */
  predicate Truthful(d: Entries, name: Name, s: Stat) {
    match s
    case Found(i) => d.Of(name) == Some(i)
    case Absent => d.Of(name).None?
    case StatFailed => true
  }

  datatype Read = Content(bytes: Bytes, inode: Inode) | ReadInvalid | ReadMissing | ReadFailed

  datatype Moved = MoveOk | MoveExists | MoveMissing | MoveFailed

  datatype Removed = RemoveOk | RemoveMissing | RemoveConflict | RemoveFailed

  datatype Outcome = Unpublished | Committed | Unknown

  /** The exception in flight, `Quiet` when there is none. */
  datatype Raised =
    | Quiet
    | OsError
    | FileExists
    | FileMissing
    | ConflictError
    | ValidationError
    | PublishError(outcome: Outcome)

  class Directory {
    var entries: Entries
    var inodes: seq<Node>
    var token: nat
    /** The directory as the operation found it, and what has happened since. */
    ghost const origin: Entries
    ghost var run: Run

    ghost predicate Valid()
      reads this
    {
      && run.now == entries && Lawful(run) && Origin(run) == origin
      && InUse(entries, inodes, token)
    }

    /** Pins the parent directory for one operation; the record starts here and is only ever
        added to. */
    constructor (entries: Entries, inodes: seq<Node>, token: nat)
      requires InUse(entries, inodes, token)
      ensures Valid() && run == Start(entries)
      ensures this.entries == entries && this.inodes == inodes && this.token == token
    {
      this.entries, this.inodes, this.token := entries, inodes, token;
      origin, run := entries, Start(entries);
    }

    /** Any number of foreign steps: the public name ends up absent, or naming any
        inode there is, or naming one the foreign process has just written. */
    method Interfere()
      requires Valid()
      modifies this
      ensures Valid() && token == old(token)
      ensures entries.hidden == old(entries).hidden && old(inodes) <= inodes
      ensures run == old(run) || run == Then(old(run), Foreign, entries)
      ensures Audit(run) == Audit(old(run))
      ensures Grows(old(run), run)
      ensures Alone(old(run), run) ==> entries == old(entries) && inodes == old(inodes)
      ensures KeepsSwap(old(run), run)
    {
      var act: bool := *;
      if act {
        var remove: bool := *;
        var write: bool := *;
        if remove {
          entries := entries.(leaf := None);
        } else if write {
          var node: Node := *;
          inodes := inodes + [node];
          entries := entries.(leaf := Some(|inodes| - 1));
        } else {
          var i: nat := *;
          if i < |inodes| {
            entries := entries.(leaf := Some(i));
          }
        }
        run := Then(run, Foreign, entries);
      }
    }

    /** Records a failure. */
    ghost method Falter()
      requires Valid()
      modifies this`run
      ensures Valid() && run == Then(old(run), Faltered, entries)
      ensures Audit(run) == Audit(old(run)) && Alone(old(run), run) && Faults(run) == Faults(old(run)) + 1
      ensures RaisedMoves(run) == RaisedMoves(old(run))
      ensures KeepsSwap(old(run), run)
    {
      run := Then(run, Faltered, entries);
    }

    /** A call that has no effect on this directory and may fail. */
    method Falters() returns (failed: bool)
      requires Valid()
      modifies this
      ensures Valid() && token == old(token)
      ensures entries.hidden == old(entries).hidden && old(inodes) <= inodes
      ensures Moment(old(run), run)
      ensures Audit(run) == Audit(old(run))
      ensures Grows(old(run), run)
      ensures Alone(old(run), run) ==> entries == old(entries) && inodes == old(inodes)
      ensures Smooth(old(run), run) ==> !failed
      ensures KeepsSwap(old(run), run)
    {
      Interfere();
      failed := *;
      assert Moment(old(run), old(run)) && Moment(old(run), run);
      if failed {
        Falter();
      }
    }

    method StatAt(name: Name) returns (s: Stat)
      requires Valid()
      modifies this
      ensures Valid() && token == old(token)
      ensures entries.hidden == old(entries).hidden && old(inodes) <= inodes
      ensures Audit(run) == Audit(old(run))
      ensures Truthful(entries, name, s)
      ensures Grows(old(run), run)
      ensures Alone(old(run), run) ==> entries == old(entries) && inodes == old(inodes)
      ensures Smooth(old(run), run) ==> !s.StatFailed?
      ensures KeepsSwap(old(run), run)
    {
      var failed := Falters();
      s := if failed then StatFailed
           else if entries.Of(name).Some? then Found(entries.Of(name).value)
           else Absent;
    }

    /** A listing made to find out what a raised move has done. */
    method ListAt(name: Name) returns (s: Stat)
      requires Valid()
      modifies this
      ensures Valid() && token == old(token)
      ensures entries.hidden == old(entries).hidden && old(inodes) <= inodes
      ensures Audit(run) == Audit(old(run)).(notice := Heard(Audit(old(run)).notice, name, s))
      ensures Truthful(entries, name, s)
      ensures Grows(old(run), run)
      ensures Alone(old(run), run) ==> entries == old(entries) && inodes == old(inodes)
      ensures Smooth(old(run), run) ==> !s.StatFailed?
    {
      s := StatAt(name);
      run := Then(run, Listed(name, s), entries);
    }

    /** Lists a name that is being read again. */
    method Recheck(name: Name, inode: Inode, bytes: Bytes) returns (r: Read)
      requires Valid()
      modifies this
      ensures Valid() && token == old(token)
      ensures entries.hidden == old(entries).hidden && old(inodes) <= inodes
      ensures r.Content? ==> r == Content(bytes, inode) && entries.Of(name) == Some(inode)
      ensures Audit(run) == Audit(old(run))
      ensures Grows(old(run), run)
      ensures Alone(old(run), run) ==> entries == old(entries) && inodes == old(inodes)
      ensures Smooth(old(run), run) && entries.Of(name) == Some(inode) ==> r.Content?
      ensures KeepsSwap(old(run), run)
    {
      var listed := StatAt(name);
      r := match listed
        case StatFailed => ReadFailed
        case Absent => ReadMissing
        case Found(i) => if i != inode then ReadInvalid else Content(bytes, inode);
    }

    /** Lists the name, opened and after the read, and insists that it still refers to the
        inode that was read. */
    method RecheckTwice(name: Name, inode: Inode, bytes: Bytes) returns (r: Read)
      requires Valid()
      modifies this
      ensures Valid() && token == old(token)
      ensures entries.hidden == old(entries).hidden && old(inodes) <= inodes
      ensures r.Content? ==> r == Content(bytes, inode) && entries.Of(name) == Some(inode)
      ensures Audit(run) ==
        if name == Public && r.Content? then Audit(old(run)).(verified := Some(inode)) else Audit(old(run))
      ensures Grows(old(run), run)
      ensures Alone(old(run), run) ==> entries == old(entries) && inodes == old(inodes)
      ensures Smooth(old(run), run) && entries.Of(name) == Some(inode) ==> r.Content?
      ensures KeepsSwap(old(run), run)
    {
      r := Recheck(name, inode, bytes);
      if r.Content? {
        r := Recheck(name, inode, bytes);
        if r.Content? && name == Public {
          run := Then(run, Saw, entries);
        }
      }
    }

    /** Lists, opens, reads and lists again: the bytes returned belong to the inode
        the name referred to at the last listing. */
    method ReadRegular(name: Name, maxBytes: nat) returns (r: Read)
      requires Valid()
      modifies this
      ensures Valid() && token == old(token)
      ensures entries.hidden == old(entries).hidden && old(inodes) <= inodes
      ensures r.Content? ==>
        && entries.Of(name) == Some(r.inode) && r.inode < |inodes|
        && inodes[r.inode] == Regular(r.bytes) && |r.bytes| <= maxBytes
      ensures Audit(run) ==
        if name == Public && r.Content? then Audit(old(run)).(verified := Some(r.inode)) else Audit(old(run))
      ensures Grows(old(run), run)
      ensures Alone(old(run), run) ==> entries == old(entries) && inodes == old(inodes)
      ensures Smooth(old(run), run) ==>
        r == match entries.Of(name)
             case None => ReadMissing
             case Some(i) =>
               if i >= |inodes| || inodes[i].Special? || |inodes[i].bytes| > maxBytes then ReadInvalid
               else Content(inodes[i].bytes, i)
      ensures KeepsSwap(old(run), run)
    {
      var listed := StatAt(name);
      match listed
      case StatFailed => r := ReadFailed;
      case Absent => r := ReadMissing;
      case Found(i) =>
        var node := inodes[i];
        if node.Special? || |node.bytes| > maxBytes {
          r := ReadInvalid;
        } else {
          r := RecheckTwice(name, i, node.bytes);
        }
    }

    /** The rename itself; `raising` when the synchronisation after it will fail. */
    method RenameNow(source: Name, target: Name, raising: bool)
      requires Valid() && source != target && (target.Private? ==> target.token < token)
      requires entries.Of(source).Some? && entries.Of(target).None?
      modifies this`entries, this`run
      ensures Valid() && entries == old(entries).Rename(source, target) && entries != old(entries)
      ensures Audit(run) == Audit(old(run)).Change(old(entries), entries).(notice := Audit(run).notice)
      ensures Audit(run).notice ==
        if raising && target == Public then Untold(source, old(entries).Of(source).value) else Audit(old(run)).notice
      ensures Audit(run).created == Audit(old(run)).created && Audit(run).dropped == Audit(old(run)).dropped
      ensures Alone(old(run), run) && Faults(run) == Faults(old(run)) + if raising then 1 else 0
      ensures RaisedMoves(run) == RaisedMoves(old(run)) + if raising then 1 else 0
    {
      ghost var before := entries;
      entries.RenameKeepsInodes(source, target);
      entries := entries.Rename(source, target);
      assert entries.Of(source).None?;
      run := Then(run, if raising then RaisedMove(source, target) else Own, entries);
    }

    /** The unlink itself. */
    method DropNow(name: Name)
      requires Valid() && entries.Of(name).Some?
      modifies this`entries, this`run
      ensures Valid() && entries == old(entries).Drop(name) && entries != old(entries)
      ensures Audit(run) == Audit(old(run)).Change(old(entries), entries)
      ensures Audit(run).created == Audit(old(run)).created
      ensures Audit(run).dropped <= Audit(old(run)).dropped + {old(entries).Of(name).value}
      ensures Smooth(old(run), run)
      ensures KeepsSwap(old(run), run)
      ensures RaisedMoves(run) == RaisedMoves(old(run))
    {
      entries.DropLosesOnlyTheLeaf(name);
      entries.DropAddsNothing(name);
      entries := entries.Drop(name);
      run := Then(run, Own, entries);
    }

    /** The kernel's no-replace rename followed by a directory synchronisation. */
    method MoveNoReplace(source: Name, target: Name) returns (r: Moved, ghost before: Entries)
      requires Valid() && source != target
      requires target.Private? ==> target.token < token
      modifies this
      ensures Valid() && token == old(token)
      ensures before.hidden == old(entries).hidden && old(inodes) <= inodes
      ensures r == MoveOk ==>
        before.Of(source).Some? && before.Of(target).None? && entries == before.Rename(source, target)
      ensures r == MoveExists ==> before.Of(target).Some? && entries == before
      ensures r == MoveMissing ==> before.Of(source).None? && entries == before
      ensures r == MoveFailed ==>
        || entries == before
        || (before.Of(source).Some? && before.Of(target).None? && entries == before.Rename(source, target))
      ensures Audit(run) == Audit(old(run)).Change(before, entries).(notice := Audit(run).notice)
      ensures Audit(run).notice ==
        if r == MoveFailed && target == Public && entries.leaf.Some? && entries != before
        then Untold(source, entries.leaf.value)
        else Audit(old(run)).notice
      ensures Audit(run).created == Audit(old(run)).created && Audit(run).dropped == Audit(old(run)).dropped
      ensures Grows(old(run), run)
      ensures Alone(old(run), run) ==> before == old(entries) && inodes == old(inodes)
      ensures Smooth(old(run), run) ==>
        r == if before.Of(source).None? then MoveMissing else if before.Of(target).Some? then MoveExists else MoveOk
      ensures r == MoveFailed ==> Faults(old(run)) < Faults(run) && RaisedMoves(old(run)) < RaisedMoves(run)
    {
      Interfere();
      before := entries;
      var early: bool := *;
      var late: bool := *;
      if early {
        run := Then(run, RaisedMove(source, target), entries);
        r := MoveFailed;
      } else if entries.Of(source).None? {
        r := MoveMissing;
      } else if entries.Of(target).Some? {
        r := MoveExists;
      } else {
        RenameNow(source, target, late);
        r := if late then MoveFailed else MoveOk;
      }
    }

    /** Checks the inode, unlinks the name and synchronises.  For the public name the
        check and the unlink are one step. */
    method UnlinkIfIdentity(name: Name, identity: Inode, missingOk: bool) returns (r: Removed, ghost before: Entries)
      requires Valid()
      modifies this
      ensures Valid() && token == old(token)
      ensures before.hidden == old(entries).hidden && old(inodes) <= inodes
      ensures r == RemoveOk ==>
        || (before.Of(name) == Some(identity) && entries == before.Drop(name))
        || (missingOk && before.Of(name).None? && entries == before)
      ensures r == RemoveMissing ==> before.Of(name).None? && !missingOk && entries == before
      ensures r == RemoveConflict ==> before.Of(name).Some? && before.Of(name) != Some(identity) && entries == before
      ensures r == RemoveFailed ==>
        || entries == before
        || (before.Of(name) == Some(identity) && entries == before.Drop(name))
      ensures Audit(run) == Audit(old(run)).Change(before, entries)
      ensures Audit(run).created == Audit(old(run)).created
      ensures Audit(run).dropped <= Audit(old(run)).dropped + {identity}
      ensures entries == before ==> Audit(run).dropped == Audit(old(run)).dropped
      ensures Grows(old(run), run)
      ensures Alone(old(run), run) ==> before == old(entries) && inodes == old(inodes)
      ensures Smooth(old(run), run) ==> r != RemoveFailed
      ensures KeepsSwap(old(run), run)
    {
      Interfere();
      before := entries;
      var early: bool := *;
      var late: bool := *;
      if early {
        Falter();
        r := RemoveFailed;
      } else if entries.Of(name).None? {
        r := if missingOk then RemoveOk else RemoveMissing;
      } else if entries.Of(name) != Some(identity) {
        r := RemoveConflict;
      } else {
        DropNow(name);
        if late {
          Falter();
        }
        r := if late then RemoveFailed else RemoveOk;
      }
    }

    /** The exchange itself. */
    method SwapNow(left: Name, right: Name)
      requires Valid() && left != right && entries.Of(left).Some? && entries.Of(right).Some?
      modifies this`entries, this`run
      ensures Valid() && entries == old(entries).Swap(left, right)
      ensures Audit(run) == Audit(old(run)).Change(old(entries), entries)
      ensures Audit(run).created == Audit(old(run)).created && Audit(run).dropped == Audit(old(run)).dropped
      ensures Smooth(old(run), run)
      ensures HasExchanged(old(run)) ==> HasExchanged(run) && FirstSwap(run) == FirstSwap(old(run))
      ensures !HasExchanged(old(run)) ==>
        HasExchanged(run) && FirstSwap(run) == Swap(Troubles(run), Audit(old(run)).verified, Audit(run).displaced)
      ensures RaisedMoves(run) == RaisedMoves(old(run))
    {
      entries.SwapKeepsInodes(left, right);
      entries := entries.Swap(left, right);
      run := Then(run, Exchanged, entries);
    }

    /** The kernel's atomic exchange of two names; it fails only without effect. */
    method Exchange(left: Name, right: Name) returns (ok: bool, ghost before: Entries)
      requires Valid() && left != right
      modifies this
      ensures Valid() && token == old(token)
      ensures before.hidden == old(entries).hidden && old(inodes) <= inodes
      ensures ok ==> before.Of(left).Some? && before.Of(right).Some? && entries == before.Swap(left, right)
      ensures !ok ==> entries == before
      ensures Audit(run) == Audit(old(run)).Change(before, entries)
      ensures Audit(run).created == Audit(old(run)).created && Audit(run).dropped == Audit(old(run)).dropped
      ensures Grows(old(run), run)
      ensures Alone(old(run), run) ==> before == old(entries) && inodes == old(inodes)
      ensures Smooth(old(run), run) ==> ok == (before.Of(left).Some? && before.Of(right).Some?)
      ensures HasExchanged(old(run)) || !ok ==> KeepsSwap(old(run), run)
      ensures ok && !HasExchanged(old(run)) ==>
        HasExchanged(run) && FirstSwap(run) == Swap(Troubles(run), Audit(old(run)).verified, Audit(run).displaced)
    {
      Interfere();
      before := entries;
      var early: bool := *;
      if early {
        Falter();
        ok := false;
      } else if entries.Of(left).None? || entries.Of(right).None? {
        ok := false;
      } else {
        SwapNow(left, right);
        ok := true;
      }
    }

    /** A private name no one has used. */
    method FreshName() returns (name: Name)
      requires Valid()
      modifies this`token
      ensures Valid() && name == Private(old(token)) && token == old(token) + 1
      ensures entries.Of(name).None?
    {
      name := Private(token);
      token := token + 1;
    }

    /** Creates a complete new inode under a fresh private name. */
    method Create(content: Bytes) returns (name: Name, identity: Inode)
      requires Valid()
      modifies this
      ensures Valid() && name == Private(old(token)) && token == old(token) + 1
      ensures identity == |old(inodes)| && inodes == old(inodes) + [Regular(content)]
      ensures old(entries).Of(name).None? && entries == old(entries).Put(name, identity)
      ensures Audit(run) == Audit(old(run)).(created := Audit(old(run)).created + {identity})
      ensures Smooth(old(run), run)
      ensures KeepsSwap(old(run), run)
      ensures RaisedMoves(run) == RaisedMoves(old(run))
    {
      name := FreshName();
      identity := |inodes|;
      inodes := inodes + [Regular(content)];
      entries.PutOnFreeNameLosesNothing(name, identity);
      entries.PutReaches(name, identity);
      assert entries.Reach() - entries.Put(name, identity).Reach() == {};
      entries := entries.Put(name, identity);
      run := Then(run, Own, entries);
    }

    /** Unlinks a stage that could not be completed. */
    method Unstage(name: Name, identity: Inode) returns (e: Raised)
      requires Valid() && name.Private?
      modifies this
      ensures Valid() && old(inodes) <= inodes && token == old(token)
      ensures e in {OsError, ConflictError}
      ensures Audit(run).(dropped := {}) == Audit(old(run)).(dropped := {})
      ensures Audit(run).dropped <= Audit(old(run)).dropped + {identity}
      ensures entries.hidden - {name.token} == old(entries).hidden - {name.token}
      ensures Grows(old(run), run)
      ensures Alone(old(run), run) ==> entries.leaf == old(entries).leaf && inodes == old(inodes)
      ensures KeepsSwap(old(run), run)
    {
      var r, before := UnlinkIfIdentity(name, identity, true);
      e := match r case RemoveConflict => ConflictError case _ => OsError;
    }

    /** Writes and closes a stage. */
    method Complete(name: Name, identity: Inode) returns (e: Raised)
      requires Valid() && name.Private? && entries.Of(name) == Some(identity)
      modifies this
      ensures Valid() && old(inodes) <= inodes && token == old(token)
      ensures e in {Quiet, OsError, ConflictError}
      ensures Audit(run).(dropped := {}) == Audit(old(run)).(dropped := {})
      ensures Audit(run).dropped <= Audit(old(run)).dropped + {identity}
      ensures entries.hidden - {name.token} == old(entries).hidden - {name.token}
      ensures e == Quiet ==> entries.Of(name) == Some(identity) && Audit(run) == Audit(old(run))
      ensures Grows(old(run), run)
      ensures Alone(old(run), run) ==> entries.leaf == old(entries).leaf && inodes == old(inodes)
      ensures Smooth(old(run), run) ==> e == Quiet && entries == old(entries)
      ensures KeepsSwap(old(run), run)
    {
      var faulty := Falters();
      if faulty {
        e := Unstage(name, identity);
      } else {
        var closed := Falters();
        e := if closed then OsError else Quiet;
      }
    }

    /** Stages content under a private name.  After a failure the stage is unlinked
        again, unless that fails too or only the final close failed. */
    method Stage(content: Bytes) returns (e: Raised, name: Name, identity: Inode)
      requires Valid() && Audit(run).created == {}
      modifies this
      ensures Valid() && old(inodes) <= inodes && token == old(token) + 1
      ensures name == Private(old(token))
      ensures e in {Quiet, OsError, ConflictError}
      ensures |old(inodes)| <= identity
      ensures Audit(run).(created := {}, dropped := {}) == Audit(old(run)).(created := {}, dropped := {})
      ensures Audit(run).created <= {identity}
      ensures Audit(run).dropped <= Audit(old(run)).dropped + Audit(run).created
      ensures identity in Audit(run).created ==> identity < |inodes| && inodes[identity] == Regular(content)
      ensures entries.hidden - {old(token)} == old(entries).hidden
      ensures e == Quiet ==>
        && entries.Of(name) == Some(identity)
        && identity < |inodes| && inodes[identity] == Regular(content)
        && Audit(run) == Audit(old(run)).(created := {identity})
      ensures Grows(old(run), run)
      ensures Alone(old(run), run) ==> entries.leaf == old(entries).leaf
      ensures Smooth(old(run), run) ==> e == Quiet
      ensures Smooth(old(run), run) ==> identity == |old(inodes)| && inodes == old(inodes) + [Regular(content)]
      ensures KeepsSwap(old(run), run)
    {
      var refused := Falters();
      if refused {
        name := FreshName();
        return OsError, name, |inodes|;
      }
      name, identity := Create(content);
      assert entries.hidden - {old(token)} == old(entries).hidden;
      e := Complete(name, identity);
    }
  }
}
