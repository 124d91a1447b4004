/**
 One connection's search scope: a materialised view of its leaves, the external index built
 over the view, and the manifest that says which rows that index was built from.
 */
module QmdScope {
  import opened Basics
  import opened CorpusState
  import opened CorpusCommit

  /** A record's leaf is named after its own key and digest. */
  predicate Recorded(policy: Policy, rows: Rows) {
    forall k <- rows :: rows[k].path.key == k && NameFits(policy, rows[k].path, rows[k].digest)
  }

  function PathsOf(rows: Rows): set<Path> {
    set k | k in rows :: rows[k].path
  }

  /** The files a view of these rows consists of. */
  function SourcesOf(rows: Rows): Disk
    requires forall k <- rows :: rows[k].path.key == k
  {
    map p | p in PathsOf(rows) :: rows[p.key].digest
  }

  predicate Readable(rows: Rows, disk: Disk) {
    forall k <- rows :: rows[k].path in disk && disk[rows[k].path] == rows[k].digest
  }

  /** How refreshing a scope ends: its records or leaves are not as they should be, it was
      interrupted, it found everything in place, or it rebuilt the index. */
  datatype Ending = Refused | Interrupted | Reused | Rebuilt

  datatype Snapshot = Snapshot(view: Disk, manifest: Option<Rows>, indexed: Disk)

  /** How far a refresh gets that does not find everything in place: it stops while copying,
      before its first command, or with commands started and not finished, which leaves the
      index with whatever they made of it; or they finish, and the manifest is written or
      not. */
  datatype Fate = Copying(view: Disk) | Unstarted | Unfinished(indexed: Disk) | Unwritten | Written

  /** How the commands on the external index go: time runs out before the first of them, one
      fails and leaves the index with whatever they made of it, or they finish. */
  datatype Commands = Late | Failing(left: Disk) | Finishing

  predicate Keyed(rows: Rows) {
    forall k <- rows :: rows[k].path.key == k
  }

  predicate Reusable(s: Snapshot, rows: Rows)
    requires Keyed(rows)
  {
    s.manifest == Some(rows) && s.view == SourcesOf(rows)
  }

  /** Refreshing a scope whose records and leaves are as they should be. */
  function Refreshed(s: Snapshot, rows: Rows, fate: Fate): (Snapshot, Ending)
    requires Keyed(rows)
  {
    if Reusable(s, rows) then (s, Reused)
    else
      var sources := SourcesOf(rows);
      match fate
      case Copying(view) => (s.(view := view), Interrupted)
      case Unstarted => (s.(view := sources), Interrupted)
      case Unfinished(indexed) => (Snapshot(sources, s.manifest, indexed), Interrupted)
      case Unwritten => (Snapshot(sources, s.manifest, sources), Interrupted)
      case Written => (Snapshot(sources, Some(rows), sources), Rebuilt)
  }

  /** What is known of the index after a refresh: what the last commands that finished made
      it, unless others were started since and did not finish. */
  function Known(s: Snapshot, known: Option<Disk>, rows: Rows, fate: Fate): Option<Disk>
    requires Keyed(rows)
  {
    if Reusable(s, rows) then known
    else
      match fate
      case Copying(_) => known
      case Unstarted => known
      case Unfinished(_) => None
      case _ => Some(SourcesOf(rows))
  }

  class Scope {
    var view: Disk
    var manifest: Option<Rows>
    /** What the external index holds, what is known of it, and how often commands have been
        started on it. */
    ghost var indexed: Disk
    ghost var known: Option<Disk>
    ghost var starts: nat

    ghost predicate Valid()
      reads this
    {
      (manifest.Some? ==> Keyed(manifest.value)) && (known.Some? ==> indexed == known.value)
    }

    ghost function Image(): Snapshot
      reads this
    {
      Snapshot(view, manifest, indexed)
    }

    constructor ()
      ensures Valid() && view == map[] && manifest == None && known == Some(map[])
    {
      view, manifest := map[], None;
      indexed, known, starts := map[], Some(map[]), 0;
    }

    /** Reads the leaves of the records, checking each against its digest. */
    static method ReadSources(rows: Rows, disk: Disk) returns (sources: Option<Disk>)
      requires forall k <- rows :: rows[k].path.key == k
      ensures sources == if Readable(rows, disk) then Some(SourcesOf(rows)) else None
    {
      var read: Disk := map[];
      var keys := rows.Keys;
      while keys != {}
        invariant keys <= rows.Keys
        invariant read.Keys == set k | k in rows && k !in keys :: rows[k].path
        invariant forall k <- rows | k !in keys ::
          rows[k].path in disk && disk[rows[k].path] == rows[k].digest == read[rows[k].path]
        decreases keys
      {
        var k :| k in keys;
        keys := keys - {k};
        if rows[k].path !in disk || disk[rows[k].path] != rows[k].digest { return None; }
        read := read[rows[k].path := rows[k].digest];
      }
      assert read.Keys == PathsOf(rows);
      assert read == SourcesOf(rows);
      return Some(read);
    }

    /** Compares every source with its copy, then the names. */
    method ViewMatches(sources: Disk) returns (same: bool)
      ensures same <==> view == sources
    {
      var names := sources.Keys;
      while names != {}
        invariant names <= sources.Keys
        invariant forall p <- sources | p !in names :: p in view && view[p] == sources[p]
        decreases names
      {
        var p :| p in names;
        names := names - {p};
        if p !in view || view[p] != sources[p] { return false; }
      }
      same := view.Keys == sources.Keys;
      if same { assert view == sources; }
    }

    /** Copies what differs and removes what is left over, until time runs out. */
    method Materialize(sources: Disk, timely: Path -> bool) returns (done: bool)
      modifies this`view
      ensures done ==> view == sources
      ensures (forall p :: timely(p)) ==> done
      ensures forall p <- view :: (p in old(view) && view[p] == old(view)[p]) || (p in sources && view[p] == sources[p])
    {
      var names := sources.Keys;
      while names != {}
        invariant names <= sources.Keys
        invariant forall p <- sources | p !in names :: p in view && view[p] == sources[p]
        invariant forall p <- view ::
          (p in old(view) && view[p] == old(view)[p]) || (p in sources && view[p] == sources[p])
        decreases names
      {
        var p :| p in names;
        if !timely(p) { return false; }
        if p !in view || view[p] != sources[p] {
          view := view[p := sources[p]];
        }
        names := names - {p};
      }
      names := view.Keys - sources.Keys;
      while names != {}
        invariant names == view.Keys - sources.Keys
        invariant forall p <- sources :: p in view && view[p] == sources[p]
        invariant forall p <- view ::
          (p in old(view) && view[p] == old(view)[p]) || (p in sources && view[p] == sources[p])
        decreases names
      {
        var p :| p in names;
        if !timely(p) { return false; }
        view := view - {p};
        names := names - {p};
      }
      assert view == sources;
      return true;
    }

    /** Has the external index follow the view. */
    method RunCommands(commands: Commands) returns (failed: bool)
      modifies this`indexed, this`starts
      ensures failed <==> !commands.Finishing?
      ensures starts == old(starts) + if commands.Late? then 0 else 1
      ensures indexed == match commands case Late => old(indexed) case Failing(left) => left case Finishing => view
    {
      if commands.Late? { return true; }
      starts := starts + 1;
      indexed := if commands.Failing? then commands.left else view;
      failed := commands.Failing?;
    }

    /** Refreshes the scope for the given rows.  A rebuilt index holds exactly the leaves; a
        reused one holds what is known of it. */
    method Refresh(policy: Policy, rows: Rows, disk: Disk, timely: Path -> bool, commands: Commands, writable: bool)
      returns (e: Ending, ghost fate: Fate)
      requires Valid()
      modifies this
      ensures Valid()
      ensures e == Refused <==> !Recorded(policy, rows) || !Readable(rows, disk)
      ensures e == Refused ==> Image() == old(Image()) && known == old(known)
      ensures e != Refused ==> Keyed(rows) && (Image(), e) == Refreshed(old(Image()), rows, fate)
      ensures e != Refused ==> Keyed(rows) && known == Known(old(Image()), old(known), rows, fate)
      ensures e in {Interrupted, Rebuilt} ==> (starts == old(starts) <==> fate.Copying? || fate.Unstarted?)
      ensures e == Rebuilt ==> indexed == SourcesOf(rows)
      ensures e == Interrupted ==> !commands.Finishing? || !writable || exists p :: !timely(p)
    {
      fate := Written;
      if !Recorded(policy, rows) { return Refused, fate; }
      var sources := ReadSources(rows, disk);
      if sources.None? { return Refused, fate; }
      var current := ViewMatches(sources.value);
      if manifest == Some(rows) && current { return Reused, fate; }
      e, fate := Update(rows, sources.value, timely, commands, writable);
    }

    /** Brings the view, the index and the manifest up to date, as far as it gets. */
    method Update(rows: Rows, sources: Disk, timely: Path -> bool, commands: Commands, writable: bool)
      returns (e: Ending, ghost fate: Fate)
      requires Valid() && Keyed(rows) && sources == SourcesOf(rows) && !Reusable(Image(), rows)
      modifies this
      ensures Valid()
      ensures (Image(), e) == Refreshed(old(Image()), rows, fate)
      ensures known == Known(old(Image()), old(known), rows, fate)
      ensures starts == old(starts) <==> fate.Copying? || fate.Unstarted?
      ensures e == Rebuilt ==> indexed == SourcesOf(rows)
      ensures e == Interrupted ==> !commands.Finishing? || !writable || exists p :: !timely(p)
    {
      fate := Written;
      var done := Materialize(sources, timely);
      if !done { return Interrupted, Copying(view); }
      var failed := RunCommands(commands);
      if failed {
        if starts == old(starts) {
          fate := Unstarted;
        } else {
          known := None;
          fate := Unfinished(indexed);
        }
        return Interrupted, fate;
      }
      known := Some(indexed);
      if !writable { return Interrupted, Unwritten; }
      manifest := Some(rows);
      e := Rebuilt;
    }
  }

  // ----------------------------------------------------------------------
  // Sequences of refreshes
  // ----------------------------------------------------------------------

  datatype Attempt = Attempt(rows: Rows, fate: Fate)

  predicate AllKeyed(attempts: seq<Attempt>) {
    forall a <- attempts :: Keyed(a.rows)
  }

  function After(s: Snapshot, attempts: seq<Attempt>): Snapshot
    requires AllKeyed(attempts)
  {
    if attempts == [] then s
    else
      var last := attempts[|attempts| - 1];
      Refreshed(After(s, attempts[..|attempts| - 1]), last.rows, last.fate).0
  }

  function KnownAfter(s: Snapshot, known: Option<Disk>, attempts: seq<Attempt>): Option<Disk>
    requires AllKeyed(attempts)
  {
    if attempts == [] then known
    else
      var init, last := attempts[..|attempts| - 1], attempts[|attempts| - 1];
      Known(After(s, init), KnownAfter(s, known, init), last.rows, last.fate)
  }

  /** The same attempt, where commands that do not finish leave `outcome` in the index. */
  function Redo(a: Attempt, outcome: Disk): Attempt {
    if a.fate.Unfinished? then a.(fate := Unfinished(outcome)) else a
  }

  function Redone(attempts: seq<Attempt>, outcomes: seq<Disk>): (redone: seq<Attempt>)
    requires |outcomes| == |attempts|
    ensures |redone| == |attempts|
    ensures forall i | 0 <= i < |attempts| :: redone[i] == Redo(attempts[i], outcomes[i])
  {
    seq(|attempts|, i requires 0 <= i < |attempts| => Redo(attempts[i], outcomes[i]))
  }

  lemma RedoneKeyed(attempts: seq<Attempt>, outcomes: seq<Disk>)
    requires |outcomes| == |attempts| && AllKeyed(attempts)
    ensures AllKeyed(Redone(attempts, outcomes))
    ensures attempts != [] ==>
      var n := |attempts| - 1;
      Redone(attempts, outcomes)[..n] == Redone(attempts[..n], outcomes[..n])
  {
  }

  /** One attempt: its outcome changes neither the view, nor the manifest, nor what is known
      of the index. */
  lemma {:induction false} OutcomeAside(t: Snapshot, u: Snapshot, known: Option<Disk>, a: Attempt, outcome: Disk)
    requires Keyed(a.rows) && u == t.(indexed := u.indexed) && (known.Some? ==> u.indexed == known.value)
    ensures
      var b := Redo(a, outcome);
      var v, w := Refreshed(t, a.rows, a.fate).0, Refreshed(u, b.rows, b.fate).0;
      && w == v.(indexed := w.indexed)
      && Known(u, known, b.rows, b.fate) == Known(t, known, a.rows, a.fate)
      && (Known(t, known, a.rows, a.fate).Some? ==> w.indexed == Known(t, known, a.rows, a.fate).value)
  {
  }

  /** What commands leave in the index changes neither the view, nor the manifest, nor what
      is known of the index; and what is known is so. */
  lemma {:induction false} OutcomesAside(s: Snapshot, known: Option<Disk>, attempts: seq<Attempt>, outcomes: seq<Disk>)
    requires AllKeyed(attempts) && |outcomes| == |attempts| && (known.Some? ==> s.indexed == known.value)
    ensures AllKeyed(Redone(attempts, outcomes))
    ensures
      var t, u := After(s, attempts), After(s, Redone(attempts, outcomes));
      && u == t.(indexed := u.indexed)
      && KnownAfter(s, known, Redone(attempts, outcomes)) == KnownAfter(s, known, attempts)
      && (KnownAfter(s, known, attempts).Some? ==> u.indexed == KnownAfter(s, known, attempts).value)
  {
    RedoneKeyed(attempts, outcomes);
    if attempts == [] {
    } else {
      var n := |attempts| - 1;
      var init := attempts[..n];
      OutcomesAside(s, known, init, outcomes[..n]);
      var t, u := After(s, init), After(s, Redone(init, outcomes[..n]));
      OutcomeAside(t, u, KnownAfter(s, known, init), attempts[n], outcomes[n]);
    }
  }

  /** Unless the index is known, it holds what the commands that did not finish left. */
  lemma {:induction false} UnknownIsLeft(s: Snapshot, known: Disk, attempts: seq<Attempt>, left: Disk)
    requires AllKeyed(attempts) && s.indexed == known && KnownAfter(s, Some(known), attempts).None?
    ensures
      var lefts := seq(|attempts|, i => left);
      AllKeyed(Redone(attempts, lefts)) && After(s, Redone(attempts, lefts)).indexed == left
  {
    var n := |attempts| - 1;
    var lefts := seq(|attempts|, i => left);
    RedoneKeyed(attempts, lefts);
    assert lefts[..n] == seq(n, i => left);
    OutcomesAside(s, Some(known), attempts[..n], lefts[..n]);
    if KnownAfter(s, Some(known), attempts[..n]).None? {
      UnknownIsLeft(s, known, attempts[..n], left);
    }
  }

  /** Whatever commands that do not finish leave, the index then holds this. */
  ghost predicate AlwaysHolds(s: Snapshot, attempts: seq<Attempt>, disk: Disk)
    requires AllKeyed(attempts)
  {
    forall outcomes: seq<Disk> | |outcomes| == |attempts| ::
      AllKeyed(Redone(attempts, outcomes)) && After(s, Redone(attempts, outcomes)).indexed == disk
  }

  lemma {:induction false} KnownAlwaysHolds(s: Snapshot, attempts: seq<Attempt>, known: Disk, disk: Disk)
    requires AllKeyed(attempts) && KnownAfter(s, Some(s.indexed), attempts) == Some(known)
    ensures AlwaysHolds(s, attempts, disk) <==> disk == known
  {
    forall outcomes: seq<Disk> | |outcomes| == |attempts|
      ensures AllKeyed(Redone(attempts, outcomes)) && After(s, Redone(attempts, outcomes)).indexed == known
    {
      OutcomesAside(s, Some(s.indexed), attempts, outcomes);
    }
    var any: seq<Disk> := seq(|attempts|, i => map[]);
    assert |any| == |attempts| && After(s, Redone(attempts, any)).indexed == known;
  }

  lemma {:induction false} UnknownNeverAlwaysHolds(s: Snapshot, attempts: seq<Attempt>, disk: Disk)
    requires AllKeyed(attempts) && KnownAfter(s, Some(s.indexed), attempts).None?
    ensures !AlwaysHolds(s, attempts, disk)
  {
    var wrong := if disk == map[] then map[Flat(Key(0, 0)) := 0] else map[];
    assert Flat(Key(0, 0)) in map[Flat(Key(0, 0)) := 0];
    UnknownIsLeft(s, s.indexed, attempts, wrong);
    var lefts := seq(|attempts|, i => wrong);
    assert |lefts| == |attempts| && After(s, Redone(attempts, lefts)).indexed != disk;
  }

  /** Exactly when a scope whose manifest and view match again may be reused, whatever the
      commands in between made of the index: the last commands that finished were for the
      rows of the manifest, and none was started since that did not finish. */
  lemma ReuseIsRight(s: Snapshot, attempts: seq<Attempt>, rows: Rows)
    requires AllKeyed(attempts) && Keyed(rows) && Reusable(After(s, attempts), rows)
    ensures AlwaysHolds(s, attempts, SourcesOf(rows)) <==>
      KnownAfter(s, Some(s.indexed), attempts) == Some(SourcesOf(rows))
  {
    match KnownAfter(s, Some(s.indexed), attempts)
    case None => UnknownNeverAlwaysHolds(s, attempts, SourcesOf(rows));
    case Some(known) => KnownAlwaysHolds(s, attempts, known, SourcesOf(rows));
  }

  /** Going to other rows and back while the commands fail: the view and the manifest match
      again and the scope is reused, but the external index still holds the other rows. */
  lemma {:induction false} InterruptedTwiceReusesStaleIndex(k: Key, d: Digest, e: Digest, tag: nat, other: nat)
    requires d != e && tag != other
    ensures
      var a: Rows := map[k := Row(d, Tagged(k, tag))];
      var b: Rows := map[k := Row(e, Tagged(k, other))];
      var built := Snapshot(SourcesOf(a), Some(a), SourcesOf(a));
      var away := Refreshed(built, b, Unfinished(SourcesOf(b)));
      var back := Refreshed(away.0, a, Unfinished(away.0.indexed));
      var reused := Refreshed(back.0, a, Written);
      && away.1 == Interrupted && back.1 == Interrupted
      && reused.1 == Reused && reused.0.indexed != SourcesOf(a)
  {
    var a: Rows := map[k := Row(d, Tagged(k, tag))];
    var b: Rows := map[k := Row(e, Tagged(k, other))];
    assert k in a && k in b;
    assert a[k].path in SourcesOf(a);
    assert a[k].path !in SourcesOf(b);
  }
}
