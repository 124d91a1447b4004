/**
 Acknowledged acquisitions deliver every structural event of the bytes they pass exactly
 once, whatever is appended, replaced, acquired and abandoned in between.
 */
module ActivityRuns {
  import opened Basics
  import opened Activity

  /** An acquisition as it was made, for some selection. */
  datatype Made = Made(selection: seq<Selected>, a: Acquisition)

  /** `starts` records where each file's first acknowledged acquisition began; `used` the
      identities any file has had. */
  datatype World = World(
    files: map<Id, File>,
    cursors: Cursors,
    made: seq<Made>,
    delivered: seq<Item>,
    starts: map<Id, nat>,
    used: set<nat>)

  datatype Event =
    | Grown(file: Id, more: Bytes)
    | Replaced(file: Id, other: File)
    | Acquiring(m: Made)
    | Acknowledging(i: nat)

  function StartsAfter(w: World, m: Made): map<Id, nat> {
    map f | f in m.a.after ::
      if f in w.starts then w.starts[f] else StartOf(m.selection, f)
  }

  function StartOf(selection: seq<Selected>, f: Id): nat {
    if selection == [] then 0 else if selection[0].file == f then selection[0].start else StartOf(selection[1..], f)
  }

  /** Any acquisition ever made may be acknowledged; it counts only if the cursors have not
      moved since. */
  function After(w: World, e: Event): World {
    match e
    case Grown(f, more) =>
      if f in w.files then w.(files := w.files[f := w.files[f].(content := w.files[f].content + more)]) else w
    case Replaced(f, other) => w.(files := w.files[f := other], used := w.used + {other.binding})
    case Acquiring(m) => w.(made := w.made + [m])
    case Acknowledging(i) =>
      if i < |w.made| && w.made[i].a.before == w.cursors then
        var m := w.made[i];
        w.(cursors := m.a.after, delivered := w.delivered + m.a.items, starts := StartsAfter(w, m))
      else w
  }

  /** A replacing file has an identity of its own, and acquisitions are what `Acquire`
      makes. */
  ghost predicate Possible(parse: Parser, w: World, e: Event) {
    && (e.Replaced? ==> e.other.binding !in w.used)
    && (e.Acquiring? ==>
          && DistinctFiles(e.m.selection) && e.m.a.before == w.cursors
          && Acquired(parse, w.files, e.m.selection, e.m.a))
  }

  /** The file is still the one its cursor belongs to. */
  predicate Same(files: map<Id, File>, cursors: Cursors, f: Id) {
    f in cursors && f in files && files[f].binding == cursors[f].binding
  }

  /** What has been delivered of a file is exactly the events between where it was taken up
      and its cursor. */
  predicate ExactlyOnce(parse: Parser, w: World, f: Id) {
    && (f !in w.cursors ==> ItemsOf(w.delivered, f) == [])
    && (f in w.cursors ==> f in w.starts)
    && (Same(w.files, w.cursors, f) ==>
          && Whole(w.files[f].content, w.starts[f], w.cursors[f].offset)
          && ItemsOf(w.delivered, f) == Events(parse, f, w.files[f].content, w.starts[f], w.cursors[f].offset))
  }

  /** An acquisition still covers a selected file, unless that has been replaced. */
  predicate Stands(parse: Parser, files: map<Id, File>, a: Acquisition, s: Selected) {
    && (s.file in a.before ==> s.file in a.after)
    && (s.file !in a.after ==> ItemsOf(a.items, s.file) == [])
    && (Same(files, a.after, s.file) ==> Covers(parse, files, a, s))
  }

  ghost predicate MadeStands(parse: Parser, w: World, m: Made) {
    && DistinctFiles(m.selection)
    && (forall s <- m.selection :: Stands(parse, w.files, m.a, s))
    && (forall f: Id | !Among(f, m.selection) ::
          ItemsOf(m.a.items, f) == [] && (f in m.a.after <==> f in m.a.before)
          && (f in m.a.before ==> m.a.after[f] == m.a.before[f]))
    && (forall f <- m.a.after :: m.a.after[f].binding in w.used)
  }

  ghost predicate Sound(parse: Parser, w: World) {
    && (forall f: Id :: ExactlyOnce(parse, w, f))
    && (forall m <- w.made :: MadeStands(parse, w, m))
    && (forall f <- w.files :: w.files[f].binding in w.used)
    && (forall f <- w.cursors :: w.cursors[f].binding in w.used)
    && w.starts.Keys == w.cursors.Keys
  }

  // ----------------------------------------------------------------------
  // Files change
  // ----------------------------------------------------------------------

  lemma {:induction false} GrowthKeepsOnce(parse: Parser, w: World, f: Id, more: Bytes, g: Id)
    requires f in w.files && ExactlyOnce(parse, w, g)
    ensures ExactlyOnce(parse, After(w, Grown(f, more)), g)
  {
    if g == f && Same(w.files, w.cursors, g) {
      EventsGrow(parse, f, w.files[f].content, more, w.starts[f], w.cursors[f].offset);
    }
  }

  lemma {:induction false} GrowthKeepsStands(parse: Parser, files: map<Id, File>, f: Id, more: Bytes, a: Acquisition,
      s: Selected)
    requires f in files && Stands(parse, files, a, s)
    ensures Stands(parse, files[f := files[f].(content := files[f].content + more)], a, s)
  {
    if s.file == f && Same(files, a.after, f) {
      var from, to := From(a.before, s), a.after[f].offset;
      if from <= to <= |files[f].content| {
        EventsGrow(parse, f, files[f].content, more, from, to);
      }
    }
  }

  lemma {:induction false} GrowthKeepsSound(parse: Parser, w: World, f: Id, more: Bytes)
    requires Sound(parse, w)
    ensures Sound(parse, After(w, Grown(f, more)))
  {
    if f in w.files {
      var v := After(w, Grown(f, more));
      forall g: Id ensures ExactlyOnce(parse, v, g) {
        GrowthKeepsOnce(parse, w, f, more, g);
      }
      forall m | m in w.made ensures MadeStands(parse, v, m) {
        assert MadeStands(parse, w, m);
        forall s | s in m.selection ensures Stands(parse, v.files, m.a, s) {
          GrowthKeepsStands(parse, w.files, f, more, m.a, s);
        }
      }
    }
  }

  lemma {:induction false} ReplacementKeepsSound(parse: Parser, w: World, f: Id, other: File)
    requires Sound(parse, w) && other.binding !in w.used
    ensures Sound(parse, After(w, Replaced(f, other)))
  {
    var v := After(w, Replaced(f, other));
    forall g: Id ensures ExactlyOnce(parse, v, g) {
      assert ExactlyOnce(parse, w, g);
    }
    forall m | m in w.made ensures MadeStands(parse, v, m) {
      assert MadeStands(parse, w, m);
      forall s | s in m.selection ensures Stands(parse, v.files, m.a, s) {
        assert Stands(parse, w.files, m.a, s);
      }
    }
  }

  // ----------------------------------------------------------------------
  // Acquisitions
  // ----------------------------------------------------------------------

  lemma {:induction false} AcquiringKeepsSound(parse: Parser, w: World, m: Made)
    requires Sound(parse, w) && Possible(parse, w, Acquiring(m))
    ensures Sound(parse, After(w, Acquiring(m)))
  {
    var v := After(w, Acquiring(m));
    forall f: Id ensures ExactlyOnce(parse, v, f) {
      assert ExactlyOnce(parse, w, f);
    }
    forall s | s in m.selection ensures Stands(parse, w.files, m.a, s) {
      assert Covers(parse, w.files, m.a, s);
    }
    forall f | f in m.a.after ensures m.a.after[f].binding in w.used {
      if Among(f, m.selection) {
        var s :| s in m.selection && s.file == f;
        assert Covers(parse, w.files, m.a, s);
      }
    }
    forall n | n in v.made ensures MadeStands(parse, v, n) {
      if n in w.made {
        assert MadeStands(parse, w, n);
      }
    }
  }

  lemma {:induction false} StartIsOf(selection: seq<Selected>, s: Selected)
    requires DistinctFiles(selection) && s in selection
    ensures StartOf(selection, s.file) == s.start
  {
    if selection[0] != s {
      assert s in selection[1..];
      var j :| 0 <= j < |selection[1..]| && selection[1..][j] == s;
      assert selection[j + 1] == s;
      StartIsOf(selection[1..], s);
    }
  }

  lemma {:induction false} AcknowledgingOne(parse: Parser, w: World, m: Made, f: Id)
    requires Sound(parse, w) && MadeStands(parse, w, m) && m.a.before == w.cursors
    ensures
      ExactlyOnce(parse, w.(cursors := m.a.after, delivered := w.delivered + m.a.items, starts := StartsAfter(w, m)), f)
  {
    assert ExactlyOnce(parse, w, f);
    ItemsOfConcat(w.delivered, m.a.items, f);
    if Among(f, m.selection) {
      var s :| s in m.selection && s.file == f;
      assert Stands(parse, w.files, m.a, s);
      StartIsOf(m.selection, s);
      if Same(w.files, m.a.after, f) {
        var from, to := From(w.cursors, s), m.a.after[f].offset;
        if Whole(w.files[f].content, from, to) && f in w.cursors && Same(w.files, w.cursors, f) {
          EventsSplit(parse, f, w.files[f].content, w.starts[f], from, to);
        }
      }
    }
  }

  lemma {:induction false} AcknowledgingKeepsSound(parse: Parser, w: World, i: nat)
    requires Sound(parse, w)
    ensures Sound(parse, After(w, Acknowledging(i)))
  {
    if i < |w.made| && w.made[i].a.before == w.cursors {
      var m, v := w.made[i], After(w, Acknowledging(i));
      assert MadeStands(parse, w, m);
      forall f: Id ensures ExactlyOnce(parse, v, f) {
        AcknowledgingOne(parse, w, m, f);
      }
      forall n | n in v.made ensures MadeStands(parse, v, n) {
        assert MadeStands(parse, w, n);
      }
    }
  }

  // ----------------------------------------------------------------------
  // Runs
  // ----------------------------------------------------------------------

  function Run(w: World, events: seq<Event>): World {
    if events == [] then w else After(Run(w, events[..|events| - 1]), events[|events| - 1])
  }

  ghost predicate AllPossible(parse: Parser, w: World, events: seq<Event>) {
    events != [] ==>
      && AllPossible(parse, w, events[..|events| - 1])
      && Possible(parse, Run(w, events[..|events| - 1]), events[|events| - 1])
  }

  lemma {:induction false} RunKeepsSound(parse: Parser, w: World, events: seq<Event>)
    requires Sound(parse, w) && AllPossible(parse, w, events)
    ensures Sound(parse, Run(w, events))
  {
    if events == [] {
    } else {
      var init, e := events[..|events| - 1], events[|events| - 1];
      RunKeepsSound(parse, w, init);
      var v := Run(w, init);
      match e
      case Grown(f, more) => GrowthKeepsSound(parse, v, f, more);
      case Replaced(f, other) => ReplacementKeepsSound(parse, v, f, other);
      case Acquiring(m) => AcquiringKeepsSound(parse, v, m);
      case Acknowledging(i) => AcknowledgingKeepsSound(parse, v, i);
    }
  }

  /** In every reachable state, for each file that is still the one its cursor belongs to:
      the items of the acknowledged acquisitions are, in order, exactly the structural
      events of the bytes from where the file was taken up to its cursor, which stands just
      after a newline or where it started. */
  lemma DeliveredExactlyOnce(parse: Parser, files: map<Id, File>, events: seq<Event>, f: Id)
    requires AllPossible(parse, World(files, map[], [], [], map[], set g | g in files :: files[g].binding), events)
    ensures
      var w := Run(World(files, map[], [], [], map[], set g | g in files :: files[g].binding), events);
      && ExactlyOnce(parse, w, f)
      && (Same(w.files, w.cursors, f) ==> f in w.starts && Whole(w.files[f].content, w.starts[f], w.cursors[f].offset))
  {
    var start := World(files, map[], [], [], map[], set g | g in files :: files[g].binding);
    assert Sound(parse, start);
    RunKeepsSound(parse, start, events);
    assert ExactlyOnce(parse, Run(start, events), f);
  }
}
