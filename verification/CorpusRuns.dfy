/**
 The corpus over whole runs: provider reads, refreshes, configuration and failures
 interleave at the sections they run under the corpus lock, and any of them may die
 between two writes.
 */
module CorpusRuns {
  import opened Basics
  import opened CorpusState
  import opened CorpusCommit
  import opened CorpusCursor

  datatype Scope = Scope(adapter: nat, settings: nat)

  /** The published state file. */
  datatype Stored = Stored(
    documents: Documents,
    connections: map<Id, Connection>,
    fingerprint: Option<Print>,
    bindings: map<Id, Binding>,
    scopes: map<Id, Scope>)
  {
    function ConnectionOf(c: Id): Connection {
      if c in connections then connections[c] else ABSENT
    }

    function ScopeOf(c: Id): Option<Scope> {
      if c in scopes then Some(scopes[c]) else None
    }
  }

  const EMPTY := Stored(map[], map[], None, map[], map[])

  /** What a sync keeps in memory while its provider reads, without the corpus lock. */
  datatype Ticket = Ticket(connection: Id, prior: Connection, scope: Option<Scope>, opening: Opening)

  datatype Reply = Reply(documents: seq<Document>, checkpoint: Option<Checkpoint>, complete: bool, status: Status,
      scanned: nat)

  /** How far a commit gets: the leaves it writes and whether it replaces the state. */
  datatype Fate = Fate(leaves: nat, state: bool)

  /** A committed result; `before` and `after` are the connection's entries around it. */
  datatype Commit = Commit(connection: Id, before: Connection, opening: Opening, reply: Reply, after: Connection,
                           startScope: Option<Scope>, endScope: Option<Scope>)

  /** `contents` holds the contents objects have had, on disk or in a provider's reply. */
  datatype World = World(stored: Stored, disk: Disk, history: seq<Commit>, contents: Contents)

  // ----------------------------------------------------------------------
  // The sections
  // ----------------------------------------------------------------------

  predicate TokenHolds(stored: Stored, t: Ticket) {
    stored.ConnectionOf(t.connection).Cursor() == t.prior.Cursor() && stored.ScopeOf(t.connection) == t.scope
  }

  predicate Owned(reply: Reply, c: Id) {
    forall d <- reply.documents :: d.key.connection == c
  }

  /** The draft of an acceptable result. */
  function Accepted(policy: Policy, stored: Stored, t: Ticket, reply: Reply): Option<Draft> {
    if !TokenHolds(stored, t) || !Owned(reply, t.connection) then None
    else Propose(policy, stored.documents, reply.documents)
  }

  function Replaced(stored: Stored, t: Ticket, reply: Reply, draft: Draft): Stored {
    stored.(
      documents := draft.documents,
      connections := stored.connections[t.connection :=
        Entry(t.prior, t.opening, reply.checkpoint, reply.complete, reply.status, reply.scanned)],
      fingerprint := if draft.Changed() then None else stored.fingerprint)
  }

  function CommitStep(policy: Policy, w: World, t: Ticket, reply: Reply, fate: Fate): World {
    match Accepted(policy, w.stored, t, reply)
    case None => w
    case Some(draft) =>
      if fate.leaves < |draft.writes| then w.(disk := Laid(w.disk, draft.writes[..fate.leaves]))
      else if !fate.state then w.(disk := Laid(w.disk, draft.writes))
      else
        var stored := Replaced(w.stored, t, reply, draft);
        World(stored, Laid(w.disk, draft.writes),
              w.history + [Commit(t.connection, w.stored.ConnectionOf(t.connection), t.opening, reply,
                                  stored.connections[t.connection], t.scope, w.stored.ScopeOf(t.connection))],
              w.contents)
  }

  /** A reply brings new contents. */
  function Met(w: World, reply: Reply): World {
    w.(contents := w.contents + ContentsOf(reply.documents))
  }

  function FailureStep(w: World, c: Id, status: Status): World {
    w.(stored := w.stored.(connections := w.stored.connections[c := w.stored.ConnectionOf(c).(status := status)]))
  }

  function ConfigureStep(w: World, c: Id, scope: Scope): World {
    w.(stored := w.stored.(scopes := w.stored.scopes[c := scope]))
  }

  /** Content-addressed leaves no visible record names. */
  function Unnamed(visible: Documents, disk: Disk): set<Path> {
    set p | p in disk && p.Tagged? && (p.key !in visible || visible[p.key].path != p)
  }

  function Orphans(policy: Policy, documents: Documents, disk: Disk): set<Path> {
    Unnamed(Visible(policy, documents), disk)
  }

  /** A refresh that finds a stale binding removes orphans, perhaps not all of them. */
  function CleanStep(policy: Policy, w: World, removed: set<Path>): World {
    if AllCurrent(w.stored.bindings, Visible(policy, w.stored.documents)) then w
    else w.(disk := w.disk - (removed * Orphans(policy, w.stored.documents, w.disk)))
  }

  /** A connection indexed from some snapshot is bound only if its rows are still those. */
  function BindStep(policy: Policy, w: World, c: Id, rows: Rows): World {
    if ScopeFingerprint(Visible(policy, w.stored.documents), c) != Some(rows) then w
    else w.(stored := w.stored.(bindings := w.stored.bindings[c := Binding(rows, rows)]))
  }

  function FinishStep(policy: Policy, w: World): World {
    var visible := Visible(policy, w.stored.documents);
    w.(stored := w.stored.(fingerprint :=
      if AllCurrent(w.stored.bindings, visible) then Some(Fingerprint(visible)) else None))
  }

  // ----------------------------------------------------------------------
  // What every section keeps
  // ----------------------------------------------------------------------

  predicate LeavesSound(policy: Policy, w: World) {
    && Named(policy, w.stored.documents)
    && LeavesNamed(policy, w.disk) && DiskWithin(w.disk, w.contents)
    && Published(policy, w.stored.documents, w.disk)
  }

  predicate IndexSound(policy: Policy, w: World) {
    Indexed(policy, w.stored.documents, w.stored.fingerprint, w.stored.bindings)
  }

  /** No commit of connection `c` from position `i` on. */
  predicate Quiet(history: seq<Commit>, c: Id, i: nat) {
    forall k | i <= k < |history| :: history[k].connection != c
  }

  /** One committed result took the cursor from where it was to where it is. */
  predicate Fair(h: Commit) {
    && h.startScope == h.endScope
    && (!h.opening.gmailRewound && !h.opening.outlookRewound ==>
          h.opening.given == if h.before.resume.Some? then h.before.resume else h.before.complete)
    && (h.opening.gmailRewound ==> h.before.gmail.None? && h.after.gmail.Some?)
    && (h.opening.outlookRewound ==> h.before.outlook.None? && h.after.outlook.Some?)
    && (h.before.gmail.Some? ==> h.after.gmail == h.before.gmail)
    && (h.before.outlook.Some? ==> h.after.outlook == h.before.outlook)
    && (if h.reply.complete then h.after.complete == h.reply.checkpoint && h.after.resume.None?
        else h.after.complete == h.before.complete
             && h.after.resume == if h.reply.checkpoint.Some? then h.reply.checkpoint else h.before.resume)
  }

  /** Every commit starts where its connection's previous commit ended. */
  predicate Linked(history: seq<Commit>) {
    forall i, j | 0 <= i < j < |history| && history[i].connection == history[j].connection
                  && Quiet(history[..j], history[i].connection, i + 1) ::
      history[j].before.Cursor() == history[i].after.Cursor()
  }

  /** The stored cursor of every connection is where its last commit ended. */
  predicate AtEnd(stored: Stored, history: seq<Commit>) {
    forall i | 0 <= i < |history| && Quiet(history, history[i].connection, i + 1) ::
      stored.ConnectionOf(history[i].connection).Cursor() == history[i].after.Cursor()
  }

  /** Once a rewind of a kind is committed for a connection, its epoch stays recorded. */
  predicate Recorded(stored: Stored, history: seq<Commit>) {
    forall h <- history ::
      && (h.opening.gmailRewound ==> stored.ConnectionOf(h.connection).gmail.Some?)
      && (h.opening.outlookRewound ==> stored.ConnectionOf(h.connection).outlook.Some?)
  }

  predicate OnceEach(history: seq<Commit>) {
    forall i, j | 0 <= i < j < |history| && history[i].connection == history[j].connection ::
      && !(history[i].opening.gmailRewound && history[j].opening.gmailRewound)
      && !(history[i].opening.outlookRewound && history[j].opening.outlookRewound)
  }

  predicate ChainSound(w: World) {
    && (forall h <- w.history :: Fair(h))
    && Linked(w.history)
    && AtEnd(w.stored, w.history)
    && Recorded(w.stored, w.history)
    && OnceEach(w.history)
  }

  predicate Sound(policy: Policy, w: World) {
    LeavesSound(policy, w) && IndexSound(policy, w) && ChainSound(w)
  }

  /** A ticket the opening section could have issued from some entry it read. */
  ghost predicate Issued(t: Ticket) {
    exists oldShape: bool, fits: Checkpoint -> bool :: t.opening == Start(t.prior, oldShape, fits)
  }

  lemma {:induction false} CommitKeepsLeaves(policy: Policy, w: World, t: Ticket, reply: Reply, fate: Fate)
    requires policy.Distinguishes(w.contents) && LeavesSound(policy, w)
    requires ContentsOf(reply.documents) <= w.contents
    ensures LeavesSound(policy, CommitStep(policy, w, t, reply, fate))
  {
    var accepted := Accepted(policy, w.stored, t, reply);
    if accepted.Some? {
      var draft := accepted.value;
      ProposeDrafts(policy, w.stored.documents, reply.documents);
      ProposeWithin(policy, w.stored.documents, reply.documents);
      var n := if fate.leaves < |draft.writes| then fate.leaves else |draft.writes|;
      DraftPublishes(policy, w.contents, w.stored.documents, draft, w.disk, n);
      assert draft.writes[..|draft.writes|] == draft.writes;
    }
  }

  lemma {:induction false} CommitKeepsIndex(policy: Policy, w: World, t: Ticket, reply: Reply, fate: Fate)
    requires Named(policy, w.stored.documents) && IndexSound(policy, w)
    ensures IndexSound(policy, CommitStep(policy, w, t, reply, fate))
  {
    var accepted := Accepted(policy, w.stored, t, reply);
    if accepted.Some? {
      ProposeDrafts(policy, w.stored.documents, reply.documents);
      if !accepted.value.Changed() {
        RowsDecide(policy, w.stored.documents, accepted.value.documents, w.stored.fingerprint, w.stored.bindings);
      }
    }
  }

  lemma {:induction false} CommitIsFair(policy: Policy, w: World, t: Ticket, reply: Reply)
    requires Issued(t) && TokenHolds(w.stored, t)
    ensures Fair(Commit(t.connection, w.stored.ConnectionOf(t.connection), t.opening, reply,
                        Entry(t.prior, t.opening, reply.checkpoint, reply.complete, reply.status, reply.scanned),
                        t.scope, w.stored.ScopeOf(t.connection)))
  {
    var oldShape, fits :| t.opening == Start(t.prior, oldShape, fits);
    StartsFromStored(t.prior, oldShape, fits);
  }

  /** A commit goes on from where its connection's entry is. */
  ghost predicate GoesOn(w: World, stored: Stored, h: Commit) {
    && h.before == w.stored.ConnectionOf(h.connection)
    && h.after == stored.ConnectionOf(h.connection)
    && forall c | c != h.connection :: stored.ConnectionOf(c) == w.stored.ConnectionOf(c)
  }

  lemma {:induction false} QuietGrows(history: seq<Commit>, h: Commit, c: Id, i: nat)
    ensures Quiet(history + [h], c, i) ==> Quiet(history, c, i) && (i <= |history| ==> h.connection != c)
  {
    var grown := history + [h];
    if Quiet(grown, c, i) {
      forall k | i <= k < |history| ensures history[k].connection != c {
        assert grown[k] == history[k];
      }
      assert grown[|history|] == h;
    }
  }

  lemma {:induction false} LinkedGrows(w: World, stored: Stored, h: Commit)
    requires Linked(w.history) && AtEnd(w.stored, w.history) && GoesOn(w, stored, h)
    ensures Linked(w.history + [h])
  {
    var history := w.history + [h];
    var n := |w.history|;
    assert history[..n] == w.history;
    forall i, j | 0 <= i < j < |history| && history[i].connection == history[j].connection
                  && Quiet(history[..j], history[i].connection, i + 1)
      ensures history[j].before.Cursor() == history[i].after.Cursor()
    {
      if j < n {
        assert history[..j] == w.history[..j];
      }
    }
  }

  lemma {:induction false} AtEndGrows(w: World, stored: Stored, h: Commit)
    requires AtEnd(w.stored, w.history) && GoesOn(w, stored, h)
    ensures AtEnd(stored, w.history + [h])
  {
    var history := w.history + [h];
    forall i | 0 <= i < |history| && Quiet(history, history[i].connection, i + 1)
      ensures stored.ConnectionOf(history[i].connection).Cursor() == history[i].after.Cursor()
    {
      QuietGrows(w.history, h, history[i].connection, i + 1);
      if i < |w.history| {
        assert history[i] == w.history[i];
      }
    }
  }

  lemma {:induction false} RecordedGrows(w: World, stored: Stored, h: Commit)
    requires Recorded(w.stored, w.history) && GoesOn(w, stored, h) && Fair(h)
    ensures Recorded(stored, w.history + [h])
  {
    forall g | g in w.history + [h]
      ensures
        && (g.opening.gmailRewound ==> stored.ConnectionOf(g.connection).gmail.Some?)
        && (g.opening.outlookRewound ==> stored.ConnectionOf(g.connection).outlook.Some?)
    {
      if g != h {
        assert g in w.history;
      }
    }
  }

  lemma {:induction false} OnceEachGrows(w: World, stored: Stored, h: Commit)
    requires OnceEach(w.history) && Recorded(w.stored, w.history) && GoesOn(w, stored, h) && Fair(h)
    ensures OnceEach(w.history + [h])
  {
    var history := w.history + [h];
    forall i, j | 0 <= i < j < |history| && history[i].connection == history[j].connection
      ensures !(history[i].opening.gmailRewound && history[j].opening.gmailRewound)
      ensures !(history[i].opening.outlookRewound && history[j].opening.outlookRewound)
    {
      if j == |w.history| {
        assert w.history[i] in w.history;
      }
    }
  }

  /** A fair commit that goes on from its connection's entry keeps the chain. */
  lemma {:induction false} ChainGrows(w: World, stored: Stored, h: Commit)
    requires ChainSound(w) && Fair(h) && GoesOn(w, stored, h)
    ensures ChainSound(w.(stored := stored, history := w.history + [h]))
  {
    LinkedGrows(w, stored, h);
    AtEndGrows(w, stored, h);
    RecordedGrows(w, stored, h);
    OnceEachGrows(w, stored, h);
  }

  lemma {:induction false} CommitKeepsChain(policy: Policy, w: World, t: Ticket, reply: Reply, fate: Fate)
    requires Issued(t) && ChainSound(w)
    ensures ChainSound(CommitStep(policy, w, t, reply, fate))
  {
    var after := CommitStep(policy, w, t, reply, fate);
    if after.history != w.history {
      CommitIsFair(policy, w, t, reply);
      ChainGrows(w, after.stored, after.history[|w.history|]);
    }
  }

  /** Sections that leave every cursor alone keep the chain. */
  lemma {:induction false} ChainStays(w: World, v: World)
    requires ChainSound(w) && v.history == w.history
    requires forall c :: v.stored.ConnectionOf(c).Cursor() == w.stored.ConnectionOf(c).Cursor()
    ensures ChainSound(v)
  {
    forall h | h in v.history
      ensures
        && (h.opening.gmailRewound ==> v.stored.ConnectionOf(h.connection).gmail.Some?)
        && (h.opening.outlookRewound ==> v.stored.ConnectionOf(h.connection).outlook.Some?)
    {
      assert v.stored.ConnectionOf(h.connection).Cursor() == w.stored.ConnectionOf(h.connection).Cursor();
    }
  }

  // ----------------------------------------------------------------------
  // Runs
  // ----------------------------------------------------------------------

  /** One section under the corpus lock, with what it finds outside the state. */
  datatype Event =
    | Committing(ticket: Ticket, reply: Reply, fate: Fate)
    | Failing(connection: Id, status: Status)
    | Configuring(connection: Id, scope: Scope)
    | Cleaning(removed: set<Path>)
    | Indexing(connection: Id, rows: Rows)
    | Finishing

  function Next(policy: Policy, w: World, e: Event): World {
    match e
    case Committing(t, reply, fate) => CommitStep(policy, Met(w, reply), t, reply, fate)
    case Failing(c, status) => FailureStep(w, c, status)
    case Configuring(c, scope) => ConfigureStep(w, c, scope)
    case Cleaning(removed) => CleanStep(policy, w, removed)
    case Indexing(c, rows) => BindStep(policy, w, c, rows)
    case Finishing => FinishStep(policy, w)
  }

  function Run(policy: Policy, w: World, events: seq<Event>): World {
    if events == [] then w else Next(policy, Run(policy, w, events[..|events| - 1]), events[|events| - 1])
  }

  ghost predicate Possible(e: Event) {
    e.Committing? ==> Issued(e.ticket)
  }

  lemma {:induction false} NextKeepsSound(policy: Policy, w: World, e: Event)
    requires policy.Distinguishes(Next(policy, w, e).contents) && Sound(policy, w) && Possible(e)
    ensures Sound(policy, Next(policy, w, e))
  {
    match e
    case Committing(t, reply, fate) =>
      var met := Met(w, reply);
      CommitKeepsLeaves(policy, met, t, reply, fate);
      CommitKeepsIndex(policy, met, t, reply, fate);
      CommitKeepsChain(policy, met, t, reply, fate);
    case Indexing(c, rows) =>
      if ScopeFingerprint(Visible(policy, w.stored.documents), c) == Some(rows) {
        BindingKeepsIndexed(policy, w.stored.documents, w.stored.fingerprint, w.stored.bindings, c, rows);
      }
      ChainStays(w, Next(policy, w, e));
    case _ =>
      ChainStays(w, Next(policy, w, e));
  }

  /** What objects have had, they have had. */
  lemma {:induction false} ContentsGrow(policy: Policy, w: World, events: seq<Event>)
    ensures w.contents <= Run(policy, w, events).contents
    ensures events != [] ==> Run(policy, w, events[..|events| - 1]).contents <= Run(policy, w, events).contents
  {
    if events == [] {
    } else {
      ContentsGrow(policy, w, events[..|events| - 1]);
    }
  }

  /** Binding a connection, seen by itself. */
  lemma {:induction false} BindKeepsSound(policy: Policy, w: World, c: Id, rows: Rows)
    requires policy.Distinguishes(w.contents) && Sound(policy, w)
    ensures Sound(policy, BindStep(policy, w, c, rows))
  {
    assert Next(policy, w, Indexing(c, rows)) == BindStep(policy, w, c, rows);
    NextKeepsSound(policy, w, Indexing(c, rows));
  }

  /** Closing a refresh, seen by itself. */
  lemma {:induction false} FinishKeepsSound(policy: Policy, w: World)
    requires policy.Distinguishes(w.contents) && Sound(policy, w)
    ensures Sound(policy, FinishStep(policy, w))
  {
    assert Next(policy, w, Finishing) == FinishStep(policy, w);
    NextKeepsSound(policy, w, Finishing);
  }

  /** In every reachable state: each visible record's leaf is there with its bytes, a stored
      index fingerprint means what it says, and the commits of each connection form one
      chain in which each recovery rewinds at most once.  Of the digests that occurred, no
      two of one object may share their leading digits. */
  lemma {:induction false} RunKeepsSound(policy: Policy, w: World, events: seq<Event>)
    requires policy.Distinguishes(Run(policy, w, events).contents)
    requires Sound(policy, w) && forall e <- events :: Possible(e)
    ensures Sound(policy, Run(policy, w, events))
  {
    if events == [] {
    } else {
      ContentsGrow(policy, w, events);
      RunKeepsSound(policy, w, events[..|events| - 1]);
      NextKeepsSound(policy, Run(policy, w, events[..|events| - 1]), events[|events| - 1]);
    }
  }

  lemma EmptyIsSound(policy: Policy)
    ensures Sound(policy, World(EMPTY, map[], [], {}))
  {
  }

  ghost predicate SameFlats(a: Disk, b: Disk) {
    forall p: Path | p.Flat? :: (p in a <==> p in b) && (p in a ==> a[p] == b[p])
  }

  lemma {:induction false} LaidKeepsFlats(disk: Disk, writes: seq<Write>)
    requires forall w <- writes :: w.path.Tagged?
    ensures SameFlats(disk, Laid(disk, writes))
  {
    if writes == [] {
    } else {
      LaidKeepsFlats(disk, writes[..|writes| - 1]);
    }
  }

  lemma {:induction false} NextKeepsFlats(policy: Policy, w: World, e: Event)
    requires Named(policy, w.stored.documents)
    ensures SameFlats(w.disk, Next(policy, w, e).disk)
  {
    if e.Committing? {
      var accepted := Accepted(policy, w.stored, e.ticket, e.reply);
      if accepted.Some? {
        ProposeDrafts(policy, w.stored.documents, e.reply.documents);
        var writes := accepted.value.writes;
        LaidKeepsFlats(w.disk, writes);
        if e.fate.leaves < |writes| {
          LaidKeepsFlats(w.disk, writes[..e.fate.leaves]);
        }
      }
    }
  }

  lemma {:induction false} RunKeepsFlats(policy: Policy, w: World, events: seq<Event>)
    requires policy.Distinguishes(Run(policy, w, events).contents)
    requires Sound(policy, w) && forall e <- events :: Possible(e)
    ensures SameFlats(w.disk, Run(policy, w, events).disk)
  {
    if events == [] {
    } else {
      ContentsGrow(policy, w, events);
      RunKeepsFlats(policy, w, events[..|events| - 1]);
      RunKeepsSound(policy, w, events[..|events| - 1]);
      NextKeepsFlats(policy, Run(policy, w, events[..|events| - 1]), events[|events| - 1]);
    }
  }

  /** No leaf's bytes ever change: whatever happens in between, a leaf that is there before
      and after holds the same bytes. */
  lemma {:induction false} LeavesNeverChange(policy: Policy, w: World, events: seq<Event>, p: Path)
    requires policy.Distinguishes(Run(policy, w, events).contents)
    requires Sound(policy, w) && forall e <- events :: Possible(e)
    requires p in w.disk && p in Run(policy, w, events).disk
    ensures Run(policy, w, events).disk[p] == w.disk[p]
  {
    RunKeepsSound(policy, w, events);
    RunKeepsFlats(policy, w, events);
    ContentsGrow(policy, w, events);
    var v := Run(policy, w, events);
    if p.Tagged? {
      assert (p.key, w.disk[p]) in v.contents && (p.key, v.disk[p]) in v.contents;
      assert NameFits(policy, p, w.disk[p]) && NameFits(policy, p, v.disk[p]);
    }
  }

  // ----------------------------------------------------------------------
  // Exactly which digests are safe
  // ----------------------------------------------------------------------

  /** The events bring no contents but these. */
  predicate Bring(events: seq<Event>, contents: Contents) {
    forall e <- events | e.Committing? :: ContentsOf(e.reply.documents) <= contents
  }

  lemma {:induction false} BroughtContents(policy: Policy, w: World, events: seq<Event>, contents: Contents)
    requires w.contents <= contents && Bring(events, contents)
    ensures Run(policy, w, events).contents <= contents
  {
    if events == [] {
    } else {
      assert forall e <- events[..|events| - 1] :: e in events;
      BroughtContents(policy, w, events[..|events| - 1], contents);
      assert events[|events| - 1] in events;
    }
  }

  function Delivering(k: Key, d: Digest): Reply {
    Reply([Document(k, false, None, d, 0, None, 0)], None, false, Unknown, 0)
  }

  function Opened(stored: Stored, c: Id): Ticket {
    var prior := stored.ConnectionOf(c);
    Ticket(c, prior, stored.ScopeOf(c), Start(prior, false, _ => false))
  }

  /** A new content of an object drafts its leaf and its record. */
  lemma {:induction false} OneDraft(policy: Policy, documents: Documents, k: Key, d: Digest)
    requires k in documents ==> documents[k].digest != d
    requires |documents| < MAX_DOCUMENTS
    ensures
      var leaf := Tagged(k, policy.tag(d));
      Propose(policy, documents, Delivering(k, d).documents) ==
        Some(Draft(documents[k := Record(d, leaf, None, 0)], [Write(leaf, d)], k in documents))
  {
    var items := Delivering(k, d).documents;
    assert items[..0] == [];
    assert Propose(policy, documents, items) == ProposeOne(policy, Draft(documents, [], false), items[0]);
    var leaf := Tagged(k, policy.tag(d));
    assert [] + [Write(leaf, d)] == [Write(leaf, d)];
  }

  /** Delivering one writes the leaf, and the record if the commit gets that far. */
  lemma {:induction false} OneDelivery(policy: Policy, w: World, k: Key, d: Digest, state: bool)
    requires k in w.stored.documents ==> w.stored.documents[k].digest != d
    requires |w.stored.documents| < MAX_DOCUMENTS
    ensures
      var v := CommitStep(policy, w, Opened(w.stored, k.connection), Delivering(k, d), Fate(1, state));
      var leaf := Tagged(k, policy.tag(d));
      && v.disk == w.disk[leaf := d]
      && v.stored.documents == if state then w.stored.documents[k := Record(d, leaf, None, 0)] else w.stored.documents
  {
    OneDraft(policy, w.stored.documents, k, d);
    var write := Write(Tagged(k, policy.tag(d)), d);
    assert [write][..0] == [];
    assert Laid(w.disk, [write]) == Laid(w.disk, [])[write.path := d];
  }

  function DeliveryOf(stored: Stored, k: Key, d: Digest, state: bool): Event {
    Committing(Opened(stored, k.connection), Delivering(k, d), Fate(1, state))
  }

  /** Two contents of a visible object that share their digits, delivered one after the
      other to an empty corpus: the second read dies between its leaf and the state, and the
      first one's record is left with the wrong bytes. */
  lemma {:induction false} SharedDigitsBreakARun(policy: Policy, k: Key, d: Digest, e: Digest)
    returns (events: seq<Event>)
    requires policy.shown(k) && d != e && policy.tag(d) == policy.tag(e)
    ensures (forall v <- events :: Possible(v)) && Bring(events, {(k, d), (k, e)})
    ensures
      var w := Run(policy, World(EMPTY, map[], [], {}), events);
      !Published(policy, w.stored.documents, w.disk)
  {
    var empty := World(EMPTY, map[], [], {});
    var first := DeliveryOf(EMPTY, k, d, true);
    var held := Next(policy, empty, first);
    FirstHeld(policy, k, d);
    var second := DeliveryOf(held.stored, k, e, false);
    OverwrittenLeaf(policy, held, k, d, e);
    events := [first, second];
    RunOfTwo(policy, empty, first, second);
    DeliveriesPossible(EMPTY, k, d, true);
    DeliveriesPossible(held.stored, k, e, false);
  }

  lemma {:induction false} FirstHeld(policy: Policy, k: Key, d: Digest)
    ensures
      var held := Next(policy, World(EMPTY, map[], [], {}), DeliveryOf(EMPTY, k, d, true));
      held.stored.documents == map[k := Record(d, Tagged(k, policy.tag(d)), None, 0)]
  {
    OneDelivery(policy, Met(World(EMPTY, map[], [], {}), Delivering(k, d)), k, d, true);
  }

  lemma DeliveriesPossible(stored: Stored, k: Key, d: Digest, state: bool)
    ensures Possible(DeliveryOf(stored, k, d, state)) && ContentsOf(Delivering(k, d).documents) == {(k, d)}
  {
    var item := Document(k, false, None, d, 0, None, 0);
    assert item in Delivering(k, d).documents;
  }

  lemma {:induction false} OverwrittenLeaf(policy: Policy, held: World, k: Key, d: Digest, e: Digest)
    requires policy.shown(k) && d != e && policy.tag(d) == policy.tag(e)
    requires held.stored.documents == map[k := Record(d, Tagged(k, policy.tag(d)), None, 0)]
    ensures
      var v := Next(policy, held, DeliveryOf(held.stored, k, e, false));
      !Published(policy, v.stored.documents, v.disk)
  {
    OneDelivery(policy, Met(held, Delivering(k, e)), k, e, false);
    assert k in held.stored.documents;
  }

  lemma {:induction false} RunOfTwo(policy: Policy, w: World, a: Event, b: Event)
    ensures Run(policy, w, [a, b]) == Next(policy, Next(policy, w, a), b)
  {
    assert [a, b][..1] == [a] && [a][..0] == [];
    assert Run(policy, w, [a]) == Next(policy, Run(policy, w, []), a);
  }

  /** Exactly which contents of visible objects are safe: over every run from an empty corpus
      that brings no others, the leaves stay published, if and only if no two of one object
      share their leading digits. */
  lemma {:induction false} SafeContents(policy: Policy, contents: Contents)
    requires forall c <- contents :: policy.shown(c.0)
    ensures
      (forall events: seq<Event> | Bring(events, contents) && forall e <- events :: Possible(e) ::
         var w := Run(policy, World(EMPTY, map[], [], {}), events);
         Published(policy, w.stored.documents, w.disk)) <==>
      policy.Distinguishes(contents)
  {
    var empty := World(EMPTY, map[], [], {});
    if policy.Distinguishes(contents) {
      forall events: seq<Event> | Bring(events, contents) && forall e <- events :: Possible(e)
        ensures
          var w := Run(policy, empty, events);
          Published(policy, w.stored.documents, w.disk)
      {
        BroughtContents(policy, empty, events, contents);
        EmptyIsSound(policy);
        RunKeepsSound(policy, empty, events);
      }
    } else {
      var a, b :| a in contents && b in contents && a.0 == b.0 && policy.tag(a.1) == policy.tag(b.1) && a.1 != b.1;
      var events := SharedDigitsBreakARun(policy, a.0, a.1, b.1);
      assert Bring(events, contents) by {
        assert a == (a.0, a.1) && b == (a.0, b.1);
      }
    }
  }
}
