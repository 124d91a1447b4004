/**
 The local lexical index: an incremental rebuild inside one transaction, guarded by a
 version-tagged fingerprint.

 Fingerprints stand for what they are taken of; a document's body is given by its digest.
 */
module Lexical {
  import opened Basics

  type Key = nat

  /** A selected document: `details` is everything else that is searched or returned. */
  datatype Record = Record(connection: nat, digest: nat, details: nat, fetchedAt: nat)

  type Selection = map<Key, Record>

  /** What a fingerprint covers of a record; when it was fetched is not part of it. */
  datatype Mark = Mark(connection: nat, digest: nat, details: nat)

  function MarkOf(r: Record): Mark {
    Mark(r.connection, r.digest, r.details)
  }

  /** An indexed row. */
  datatype Row = Row(key: Key, mark: Mark, fetchedAt: nat)

  function RowOf(key: Key, r: Record): Row {
    Row(key, MarkOf(r), r.fetchedAt)
  }

  datatype Fingerprint = Fingerprint(version: nat, marks: map<Key, Mark>)

  function FingerprintOf(version: nat, selection: Selection): Fingerprint {
    Fingerprint(version, map k | k in selection :: MarkOf(selection[k]))
  }

  /** A catalogue entry: where the row is, and the fingerprint it was made under. */
  datatype Entry = Entry(row: nat, version: nat, mark: Mark)

  function MarksOf(catalog: map<Key, Entry>): map<Key, Mark> {
    map k | k in catalog :: catalog[k].mark
  }

  // ----------------------------------------------------------------------
  // Rows and catalogue
  // ----------------------------------------------------------------------

  datatype Tables = Tables(rows: map<nat, Row>, catalog: map<Key, Entry>) {

    /** The row the catalogue names for a document is there and is its own. */
    predicate Found(key: Key) {
      key in catalog && catalog[key].row in rows && rows[catalog[key].row].key == key
    }

    /** Every entry's row is there. */
    predicate Filed() {
      forall k <- catalog :: Found(k)
    }

    /** Every row is the one the catalogue names for its document, under the fingerprint
        stored there. */
    predicate Traced(version: nat) {
      && (forall k <- catalog :: catalog[k].version == version)
      && (forall r <- rows ::
            && rows[r].key in catalog && catalog[rows[r].key].row == r
            && catalog[rows[r].key].mark == rows[r].mark)
    }
  }

  const EMPTY := Tables(map[], map[])

  /** One row for each selected document and no other, as a fresh build would make it but
      for when it was fetched. */
  predicate Built(t: Tables, selection: Selection) {
    && t.catalog.Keys == selection.Keys
    && (forall k <- selection ::
          && t.Found(k)
          && t.rows[t.catalog[k].row].mark == Mark(selection[k].connection, selection[k].digest, selection[k].details))
    && (forall r <- t.rows :: t.rows[r].key in selection && t.catalog[t.rows[r].key].row == r)
  }

  predicate Unchanged(catalog: map<Key, Entry>, key: Key, record: Record) {
    key in catalog && catalog[key].mark == MarkOf(record)
  }

  /** Documents whose mark has not changed keep their entries. */
  predicate Reused(before: map<Key, Entry>, after: map<Key, Entry>, selection: Selection) {
    forall k <- selection | Unchanged(before, k, selection[k]) :: k in after && after[k] == before[k]
  }

  /** The row id a new row gets: one above the largest in use. */
  function NextRow(used: set<nat>): (row: nat)
    ensures forall r <- used :: r < row
  {
    if used == {} then 1
    else
      var least := Least(used);
      var rest := NextRow(used - {least});
      assert forall r <- used :: r == least || r in used - {least};
      if least < rest then rest else least + 1
  }

  /** Indexing one document: its earlier row, or whatever has its row id, is deleted. */
  function Placed(t: Tables, version: nat, key: Key, record: Record): Tables {
    if Unchanged(t.catalog, key, record) then t
    else
      var kept := if key in t.catalog then t.rows - {t.catalog[key].row} else t.rows;
      var row := NextRow(kept.Keys);
      Tables(kept[row := RowOf(key, record)], t.catalog[key := Entry(row, version, MarkOf(record))])
  }

  /** Indexing documents in the order of their keys. */
  function Updated(t: Tables, version: nat, selection: Selection, keys: set<Key>): Tables
    requires keys <= selection.Keys
    decreases |keys|
  {
    if keys == {} then t
    else
      var key := Least(keys);
      Updated(Placed(t, version, key, selection[key]), version, selection, keys - {key})
  }

  /** Deleting the entries of other documents, and whatever has their row ids. */
  function Pruned(t: Tables, stale: set<Key>): Tables {
    Tables(t.rows - (set k | k in t.catalog && k in stale :: t.catalog[k].row), t.catalog - stale)
  }

  function Renewed(t: Tables, version: nat, selection: Selection): Tables {
    Pruned(Updated(t, version, selection, selection.Keys), t.catalog.Keys - selection.Keys)
  }

  lemma {:induction false} PlacedTraces(t: Tables, version: nat, key: Key, record: Record)
    requires t.Traced(version)
    ensures
      var after := Placed(t, version, key, record);
      after.Traced(version) && (t.Filed() ==> after.Filed())
  {
    var after := Placed(t, version, key, record);
    if !Unchanged(t.catalog, key, record) && t.Filed() {
      forall k | k in after.catalog ensures after.Found(k) {
        if k != key {
          assert t.Found(k) && after.catalog[k] == t.catalog[k];
          assert key in t.catalog ==> t.Found(key) && t.catalog[key].row != t.catalog[k].row;
          assert after.rows[t.catalog[k].row] == t.rows[t.catalog[k].row];
        }
      }
    }
  }

  /** The row of an unchanged document that is missing is not made again. */
  lemma {:induction false} PlacedKeepsMissing(t: Tables, version: nat, key: Key, record: Record, missing: Key)
    requires missing in t.catalog && !t.Found(missing) && (missing == key ==> Unchanged(t.catalog, key, record))
    ensures
      var after := Placed(t, version, key, record);
      !after.Found(missing) && missing in after.catalog && after.catalog[missing] == t.catalog[missing]
  {
  }

  lemma {:induction false} UpdatedTraces(t: Tables, version: nat, selection: Selection, keys: set<Key>)
    requires keys <= selection.Keys && t.Traced(version)
    ensures
      var after := Updated(t, version, selection, keys);
      after.Traced(version) && (t.Filed() ==> after.Filed())
    decreases |keys|
  {
    if keys == {} {
    } else {
      var key := Least(keys);
      PlacedTraces(t, version, key, selection[key]);
      UpdatedTraces(Placed(t, version, key, selection[key]), version, selection, keys - {key});
    }
  }

  /** Afterwards the catalogue has the marks of the indexed documents; entries of others, and
      of unchanged ones, stay. */
  predicate Catalogs(before: map<Key, Entry>, after: map<Key, Entry>, selection: Selection, keys: set<Key>)
    requires keys <= selection.Keys
  {
    && after.Keys == before.Keys + keys
    && (forall k <- keys :: Unchanged(after, k, selection[k]))
    && (forall k <- before | k in keys ==> Unchanged(before, k, selection[k]) :: after[k] == before[k])
  }

  lemma {:induction false} UpdatedCatalogsOne(t: Tables, version: nat, selection: Selection, keys: set<Key>, k: Key)
    requires keys <= selection.Keys
    ensures
      var after := Updated(t, version, selection, keys).catalog;
      && (k in after <==> k in t.catalog || k in keys)
      && (k in keys ==> Unchanged(after, k, selection[k]))
      && (k in t.catalog && (k in keys ==> Unchanged(t.catalog, k, selection[k])) ==> after[k] == t.catalog[k])
    decreases |keys|
  {
    if keys == {} {
    } else {
      var key := Least(keys);
      UpdatedCatalogsOne(Placed(t, version, key, selection[key]), version, selection, keys - {key}, k);
    }
  }

  lemma UpdatedCatalogs(t: Tables, version: nat, selection: Selection, keys: set<Key>)
    requires keys <= selection.Keys
    ensures Catalogs(t.catalog, Updated(t, version, selection, keys).catalog, selection, keys)
  {
    forall k ensures var after := Updated(t, version, selection, keys).catalog;
      && (k in after <==> k in t.catalog || k in keys)
      && (k in keys ==> Unchanged(after, k, selection[k]))
      && (k in t.catalog && (k in keys ==> Unchanged(t.catalog, k, selection[k])) ==> after[k] == t.catalog[k])
    {
      UpdatedCatalogsOne(t, version, selection, keys, k);
    }
  }

  lemma {:induction false} UpdatedKeepsMissing(t: Tables, version: nat, selection: Selection, keys: set<Key>,
      missing: Key)
    requires keys <= selection.Keys && missing in t.catalog && !t.Found(missing)
    requires missing in keys ==> Unchanged(t.catalog, missing, selection[missing])
    ensures !Updated(t, version, selection, keys).Found(missing)
    decreases |keys|
  {
    if keys == {} {
    } else {
      var key := Least(keys);
      PlacedKeepsMissing(t, version, key, selection[key], missing);
      UpdatedKeepsMissing(Placed(t, version, key, selection[key]), version, selection, keys - {key}, missing);
    }
  }

  lemma {:induction false} PrunedTraces(t: Tables, version: nat, stale: set<Key>)
    requires t.Traced(version)
    ensures Pruned(t, stale).Traced(version) && (t.Filed() ==> Pruned(t, stale).Filed())
  {
    var after := Pruned(t, stale);
    forall r | r in after.rows ensures t.rows[r].key !in stale {
      assert t.catalog[t.rows[r].key].row == r;
    }
    if t.Filed() {
      forall k | k in after.catalog ensures after.Found(k) {
        assert t.Found(k);
        forall s | s in t.catalog && s in stale ensures t.catalog[s].row != t.catalog[k].row {
          assert t.Found(s);
        }
      }
    }
  }

  /** Renewing keeps every row traced to the catalogue, which it makes that of the selection;
      unchanged documents keep their entries. */
  lemma {:induction false} RenewedTraces(t: Tables, version: nat, selection: Selection)
    requires t.Traced(version)
    ensures
      var after := Renewed(t, version, selection);
      && after.Traced(version) && (t.Filed() ==> after.Filed())
      && MarksOf(after.catalog) == FingerprintOf(version, selection).marks
      && Reused(t.catalog, after.catalog, selection)
  {
    var updated := Updated(t, version, selection, selection.Keys);
    var stale := t.catalog.Keys - selection.Keys;
    UpdatedTraces(t, version, selection, selection.Keys);
    UpdatedCatalogs(t, version, selection, selection.Keys);
    PrunedTraces(updated, version, stale);
    var after := Renewed(t, version, selection);
    assert after.catalog.Keys == selection.Keys;
    forall k | k in selection ensures after.catalog[k].mark == MarkOf(selection[k]) {
      assert Unchanged(updated.catalog, k, selection[k]);
    }
    assert MarksOf(after.catalog).Keys == FingerprintOf(version, selection).marks.Keys;
  }

  /** A row that is missing for an unchanged document stays missing. */
  lemma {:induction false} RenewedKeepsMissing(t: Tables, version: nat, selection: Selection, missing: Key)
    requires missing in selection && Unchanged(t.catalog, missing, selection[missing]) && !t.Found(missing)
    ensures !Renewed(t, version, selection).Found(missing)
  {
    UpdatedKeepsMissing(t, version, selection, selection.Keys, missing);
  }

  /** Traced tables with the marks of a selection are built exactly when every entry's row is
      there. */
  lemma {:induction false} FiledIsBuilt(t: Tables, version: nat, selection: Selection)
    requires t.Traced(version) && MarksOf(t.catalog) == FingerprintOf(version, selection).marks
    ensures Built(t, selection) <==> t.Filed()
  {
    var marks := FingerprintOf(version, selection).marks;
    assert marks.Keys == selection.Keys && MarksOf(t.catalog).Keys == t.catalog.Keys;
    forall k | k in selection ensures t.catalog[k].mark == MarkOf(selection[k]) {
      assert marks[k] == MarksOf(t.catalog)[k];
    }
    if t.Filed() {
      forall k | k in selection
        ensures t.Found(k) && t.rows[t.catalog[k].row].mark == MarkOf(selection[k])
      {
        assert t.Found(k);
      }
    }
  }

  // ----------------------------------------------------------------------
  // The database, whichever versions of the code have opened it
  // ----------------------------------------------------------------------

  /** The version whose tables these are, the stored fingerprint, and the tables. */
  datatype Database = Database(schema: Option<nat>, stored: Option<Fingerprint>, tables: Tables) {

    /** Every row is traced to the catalogue, which is empty unless the stored fingerprint is
        of its version and says what it lists.  Rows may be missing. */
    predicate Sound() {
      match schema
      case None => tables == EMPTY && stored.None?
      case Some(v) =>
        tables.Traced(v) && (tables.catalog == map[] || stored == Some(Fingerprint(v, MarksOf(tables.catalog))))
    }
  }

  const NEW := Database(None, None, EMPTY)

  /** How an opening of the database ends: it dies after dropping the rows of another version
      and before dropping the catalogue, or after both; once its own tables are configured; or
      it answers. */
  datatype Result = BetweenDrops | Dropped | Died | Ended

  /** Creates the tables, dropping those of another version one after the other.  The
      fingerprint stays. */
  function Configured(db: Database, version: nat, result: Result): Database {
    if db.schema == Some(version) then db
    else
      match result
      case BetweenDrops => db.(tables := db.tables.(rows := map[]))
      case Dropped => db.(tables := EMPTY)
      case _ => Database(Some(version), db.stored, EMPTY)
  }

  predicate Matches(db: Database, version: nat, selection: Selection) {
    db.stored == Some(FingerprintOf(version, selection))
  }

  /** A completed rebuild. */
  function Rebuilt(db: Database, version: nat, selection: Selection): Database {
    Database(db.schema, Some(FingerprintOf(version, selection)), Renewed(db.tables, version, selection))
  }

  /** What a query is answered from: the configured tables when the fingerprint matches, and
      otherwise rebuilt ones. */
  function Answered(db: Database, version: nat, selection: Selection): Database {
    var c := Configured(db, version, Ended);
    if Matches(c, version, selection) then c else Rebuilt(c, version, selection)
  }

  lemma {:induction false} ConfiguredIsSound(db: Database, version: nat, result: Result)
    requires db.Sound()
    ensures Configured(db, version, result).Sound()
    ensures db.tables.Filed() && !result.BetweenDrops? ==> Configured(db, version, result).tables.Filed()
  {
  }

  lemma {:induction false} AnsweredIsSound(db: Database, version: nat, selection: Selection)
    requires db.Sound()
    ensures
      var after := Answered(db, version, selection);
      && after.Sound() && after.schema == Some(version) && Matches(after, version, selection)
      && (Configured(db, version, Ended).tables.Filed() ==> after.tables.Filed())
  {
    var c := Configured(db, version, Ended);
    ConfiguredIsSound(db, version, Ended);
    if !Matches(c, version, selection) {
      RenewedTraces(c.tables, version, selection);
    }
  }

  /** Exactly when a matching fingerprint means that the index is built: every row that the
      catalogue names is there, and the catalogue is not empty or nothing is selected. */
  lemma {:induction false} MatchMeansBuilt(db: Database, version: nat, selection: Selection)
    requires db.Sound() && db.schema == Some(version) && Matches(db, version, selection)
    ensures Built(db.tables, selection) <==>
      db.tables.Filed() && (db.tables.catalog != map[] || selection == map[])
  {
    var marks := FingerprintOf(version, selection).marks;
    assert marks.Keys == selection.Keys;
    if db.tables.catalog == map[] {
      assert db.tables.catalog.Keys == {};
      if selection == map[] { assert db.tables.rows.Keys == {}; }
    } else {
      FiledIsBuilt(db.tables, version, selection);
    }
  }

  /** A rebuild leaves the index built from tables whose every row is there; an unchanged
      document that has lost its row does not get it back. */
  lemma {:induction false} RebuiltMeansBuilt(db: Database, version: nat, selection: Selection)
    requires db.Sound() && db.schema == Some(version)
    ensures db.tables.Filed() ==> Built(Rebuilt(db, version, selection).tables, selection)
    ensures
      (exists k <- selection :: Unchanged(db.tables.catalog, k, selection[k]) && !db.tables.Found(k)) ==>
      !Built(Rebuilt(db, version, selection).tables, selection)
  {
    RenewedTraces(db.tables, version, selection);
    FiledIsBuilt(Renewed(db.tables, version, selection), version, selection);
    if k :| k in selection && Unchanged(db.tables.catalog, k, selection[k]) && !db.tables.Found(k) {
      RenewedKeepsMissing(db.tables, version, selection, k);
    }
  }

  /** Every row the catalogue names is there, and an empty catalogue does not go with a
      fingerprint of this version that promises documents. */
  predicate Ready(db: Database, version: nat) {
    && db.tables.Filed()
    && (db.tables.catalog == map[] && db.stored.Some? && db.stored.value.version == version ==>
          db.stored.value.marks == map[])
  }

  /** Whatever is selected, the answer comes from a built index. */
  ghost predicate AlwaysBuilt(db: Database, version: nat) {
    forall selection: Selection :: Built(Answered(db, version, selection).tables, selection)
  }

  /** Exactly which databases answer every query from a built index. */
  lemma {:induction false} ReadyMeansAlwaysBuilt(db: Database, version: nat)
    requires db.Sound()
    ensures AlwaysBuilt(db, version) <==> Ready(Configured(db, version, Ended), version)
  {
    var c := Configured(db, version, Ended);
    ConfiguredIsSound(db, version, Ended);
    if Ready(c, version) {
      forall selection: Selection ensures Built(Answered(db, version, selection).tables, selection) {
        if Matches(c, version, selection) {
          assert FingerprintOf(version, selection).marks.Keys == selection.Keys;
          MatchMeansBuilt(c, version, selection);
        } else {
          RebuiltMeansBuilt(c, version, selection);
        }
      }
    } else {
      var selection := Exposing(c, version);
      assert !Built(Answered(db, version, selection).tables, selection);
    }
  }

  /** A record with a given mark. */
  function Marked(m: Mark): Record {
    Record(m.connection, m.digest, m.details, 0)
  }

  /** A selection for which a database that is not ready answers wrongly. */
  lemma {:induction false} Exposing(c: Database, version: nat) returns (selection: Selection)
    requires c.Sound() && c.schema == Some(version) && !Ready(c, version)
    ensures !Built(Answered(c, version, selection).tables, selection)
  {
    if !c.tables.Filed() {
      var k :| k in c.tables.catalog && !c.tables.Found(k);
      selection := map[k := Marked(c.tables.catalog[k].mark)];
      assert k in selection && Unchanged(c.tables.catalog, k, selection[k]);
      if !Matches(c, version, selection) {
        RebuiltMeansBuilt(c, version, selection);
      }
    } else {
      var marks := c.stored.value.marks;
      selection := map k | k in marks :: Marked(marks[k]);
      assert FingerprintOf(version, selection).marks == marks;
      assert selection.Keys == marks.Keys;
      MatchMeansBuilt(c, version, selection);
      assert selection == map[] ==> marks.Keys == {};
    }
  }

  // ----------------------------------------------------------------------
  // Openings by any versions, ending anywhere
  // ----------------------------------------------------------------------

  /** One opening of the database by some version of the code for some selection. */
  datatype Opening = Opening(version: nat, selection: Selection, result: Result)

  function Opened(db: Database, o: Opening): Database {
    if o.result.Ended? then Answered(db, o.version, o.selection) else Configured(db, o.version, o.result)
  }

  function After(openings: seq<Opening>): Database {
    if openings == [] then NEW else Opened(After(openings[..|openings| - 1]), openings[|openings| - 1])
  }

  lemma {:induction false} OpenedIsSound(db: Database, o: Opening)
    requires db.Sound()
    ensures Opened(db, o).Sound()
  {
    if o.result.Ended? {
      AnsweredIsSound(db, o.version, o.selection);
    } else {
      ConfiguredIsSound(db, o.version, o.result);
    }
  }

  /** Whatever versions open it and wherever they die, the database stays sound. */
  lemma {:induction false} OpeningsKeepSound(openings: seq<Opening>)
    ensures After(openings).Sound()
  {
    if openings == [] {
    } else {
      OpeningsKeepSound(openings[..|openings| - 1]);
      OpenedIsSound(After(openings[..|openings| - 1]), openings[|openings| - 1]);
    }
  }

  /** The catalogue of the last rebuild has not been dropped. */
  predicate Intact(openings: seq<Opening>) {
    openings != [] &&
    var init, last := openings[..|openings| - 1], openings[|openings| - 1];
    || (last.result.Ended? && !Matches(Configured(After(init), last.version, Ended), last.version, last.selection))
    || (Intact(init) && (After(init).schema == Some(last.version) || last.result.BetweenDrops?))
  }

  /** No version has died between its two drops, leaving a catalogue, since the tables were
      last dropped whole. */
  predicate Spared(openings: seq<Opening>) {
    openings == [] ||
    var init, last := openings[..|openings| - 1], openings[|openings| - 1];
    if After(init).schema == Some(last.version) then Spared(init)
    else last.result.BetweenDrops? ==> After(init).tables.catalog == map[]
  }

  /** Then every row that the catalogue names is there. */
  lemma {:induction false} SparedIsFiled(openings: seq<Opening>)
    requires Spared(openings)
    ensures After(openings).tables.Filed()
  {
    if openings == [] {
    } else {
      var init, last := openings[..|openings| - 1], openings[|openings| - 1];
      OpeningsKeepSound(init);
      if After(init).schema == Some(last.version) {
        SparedIsFiled(init);
      }
      if last.result.Ended? {
        AnsweredIsSound(After(init), last.version, last.selection);
      }
    }
  }

  /** Over any openings, a match means that the index is built if and only if the catalogue of
      the last rebuild is still there with the row of its every entry, or nothing is
      selected. */
  lemma {:induction false} MatchOverOpenings(openings: seq<Opening>, version: nat, selection: Selection)
    requires Matches(After(openings), version, selection)
    ensures
      var db := After(openings);
      Built(Configured(db, version, Ended).tables, selection) <==>
      (Intact(openings) && db.schema == Some(version) && db.tables.Filed()) || selection == map[]
  {
    var db := After(openings);
    var c := Configured(db, version, Ended);
    OpeningsKeepSound(openings);
    IntactHolds(openings);
    ConfiguredIsSound(db, version, Ended);
    MatchMeansBuilt(c, version, selection);
    assert FingerprintOf(version, selection).marks.Keys == selection.Keys;
    assert MarksOf(c.tables.catalog).Keys == c.tables.catalog.Keys;
  }

  /** An intact database has the catalogue that its fingerprint promises; another one has an
      empty one. */
  lemma {:induction false} IntactHolds(openings: seq<Opening>)
    ensures
      var db := After(openings);
      if Intact(openings)
      then db.schema.Some? && db.stored == Some(Fingerprint(db.schema.value, MarksOf(db.tables.catalog)))
      else db.tables.catalog == map[]
  {
    if openings == [] {
    } else {
      var init, last := openings[..|openings| - 1], openings[|openings| - 1];
      IntactHolds(init);
      OpeningsKeepSound(init);
      if last.result.Ended? {
        var c := Configured(After(init), last.version, Ended);
        if !Matches(c, last.version, last.selection) {
          ConfiguredIsSound(After(init), last.version, Ended);
          RenewedTraces(c.tables, last.version, last.selection);
        }
      }
    }
  }

  /** While one version alone opens the database, every query is answered from a built
      index. */
  lemma {:induction false} OneVersionIsAlwaysBuilt(openings: seq<Opening>, version: nat)
    requires forall o <- openings :: o.version == version
    ensures AlwaysBuilt(After(openings), version)
  {
    OneVersionStaysIntact(openings, version);
    OpeningsKeepSound(openings);
    IntactHolds(openings);
    SparedIsFiled(openings);
    var db := After(openings);
    ConfiguredIsSound(db, version, Ended);
    assert MarksOf(db.tables.catalog).Keys == db.tables.catalog.Keys;
    if db.stored.Some? && db.tables.catalog == map[] { assert db.stored.value.marks.Keys == {}; }
    ReadyMeansAlwaysBuilt(db, version);
  }

  lemma {:induction false} OneVersionStaysIntact(openings: seq<Opening>, version: nat)
    requires forall o <- openings :: o.version == version
    ensures Spared(openings)
    ensures After(openings).schema.None? || After(openings).schema == Some(version)
    ensures After(openings).stored.Some? ==> Intact(openings) && After(openings).schema == Some(version)
  {
    if openings == [] {
    } else {
      var init, last := openings[..|openings| - 1], openings[|openings| - 1];
      assert last in openings;
      OneVersionStaysIntact(init, version);
      OpeningsKeepSound(init);
    }
  }

  lemma Last(openings: seq<Opening>, o: Opening)
    ensures After(openings + [o]) == Opened(After(openings), o)
  {
    assert (openings + [o])[..|openings|] == openings;
  }

  lemma {:induction false} BuiltThenDropped(version: nat, other: nat, selection: Selection)
    requires version != other
    ensures
      var built, death := Opening(version, selection, Ended), Opening(other, selection, Died);
      && Built(After([built]).tables, selection)
      && After([built, death]) == Database(Some(other), Some(FingerprintOf(version, selection)), EMPTY)
  {
    var built, death := Opening(version, selection, Ended), Opening(other, selection, Died);
    assert After([]) == NEW;
    Last([], built);
    Last([built], death);
    assert [] + [built] == [built] && [built] + [death] == [built, death];
    AnsweredIsSound(NEW, version, selection);
    RebuiltMeansBuilt(Configured(NEW, version, Ended), version, selection);
  }

  lemma {:induction false} ThenMatchesEmpty(version: nat, openings: seq<Opening>, selection: Selection)
    requires After(openings).stored == Some(FingerprintOf(version, selection)) && After(openings).tables == EMPTY
    ensures
      var db := After(openings + [Opening(version, selection, Ended)]);
      db.stored == After(openings).stored && db.tables == EMPTY
  {
    Last(openings, Opening(version, selection, Ended));
  }

  /** Two versions in turn: one builds the index, the other drops the tables and dies, and
      the first finds its own fingerprint over empty tables, now and at every later
      opening. */
  lemma {:induction false} VersionsInTurnLeaveIndexEmpty(version: nat, other: nat, k: Key, record: Record)
    returns (openings: seq<Opening>)
    requires version != other
    ensures |openings| == 4
    ensures openings[0].version == openings[2].version == openings[3].version == version && openings[1].version == other
    ensures
      var selection := map[k := record];
      && (forall i | 0 <= i < 4 && i != 1 :: openings[i].selection == selection && openings[i].result.Ended?)
      && Built(After(openings[..1]).tables, selection)
      && !Built(After(openings[..3]).tables, selection) && !Built(After(openings).tables, selection)
  {
    var selection := map[k := record];
    assert k in selection;
    var query, death := Opening(version, selection, Ended), Opening(other, selection, Died);
    openings := [query, death] + [query] + [query];
    assert openings[..1] == [query] && openings[..3] == [query, death] + [query];
    BuiltThenDropped(version, other, selection);
    ThenMatchesEmpty(version, [query, death], selection);
    ThenMatchesEmpty(version, openings[..3], selection);
    assert EMPTY.catalog.Keys == {};
  }

  /** Indexing two documents in empty tables. */
  lemma {:induction false} TwoPlaced(version: nat, first: Record, second: Record)
    ensures
      var selection := map[1 := first, 2 := second];
      Renewed(EMPTY, version, selection) ==
      Tables(map[1 := RowOf(1, first), 2 := RowOf(2, second)],
        map[1 := Entry(1, version, MarkOf(first)), 2 := Entry(2, version, MarkOf(second))])
  {
    var selection := map[1 := first, 2 := second];
    assert selection.Keys == {1, 2};
    var one := Placed(EMPTY, version, 1, first);
    assert EMPTY.rows.Keys == {} && one.rows == map[1 := RowOf(1, first)] && one.rows.Keys == {1};
    NextAfterOne();
    var both := Placed(one, version, 2, second);
    assert Least({1, 2}) == 1 && {1, 2} - {1} == {2} && Least({2}) == 2 && {2} - {2} == {};
    assert Updated(both, version, selection, {}) == both;
    assert Updated(one, version, selection, {2}) == both;
    assert Updated(EMPTY, version, selection, {1, 2}) == both;
    assert EMPTY.catalog.Keys - selection.Keys == {};
    assert Pruned(both, {}) == both;
  }

  lemma NextAfterOne()
    ensures NextRow({}) == 1 && NextRow({1}) == 2
  {
    assert Least({1}) == 1 && {1} - {1} == {};
  }

  /** Two documents are indexed, but their rows have been dropped. */
  function HalfDropped(version: nat, first: Record, second: Record): Database {
    Database(Some(version), Some(FingerprintOf(version, map[1 := first, 2 := second])),
      Tables(map[], map[1 := Entry(1, version, MarkOf(first)), 2 := Entry(2, version, MarkOf(second))]))
  }

  lemma {:induction false} BuiltThenHalfDropped(version: nat, other: nat, first: Record, second: Record)
    requires version != other
    ensures
      var both := map[1 := first, 2 := second];
      var built, death := Opening(version, both, Ended), Opening(other, map[], BetweenDrops);
      && Built(After([built]).tables, both) && After([built, death]) == HalfDropped(version, first, second)
      && Intact([built, death])
  {
    var both := map[1 := first, 2 := second];
    var built, death := Opening(version, both, Ended), Opening(other, map[], BetweenDrops);
    assert After([]) == NEW;
    Last([], built);
    Last([built], death);
    assert [] + [built] == [built] && [built] + [death] == [built, death];
    AnsweredIsSound(NEW, version, both);
    RebuiltMeansBuilt(Configured(NEW, version, Ended), version, both);
    TwoPlaced(version, first, second);
    assert [built][..0] == [] && [built, death][..1] == [built];
    assert Intact([built]);
  }

  /** The first document is unchanged, so only the second is indexed again: as row 1. */
  lemma {:induction false} RowTaken(t: Tables, version: nat, first: Record, second: Record, changed: Record)
    requires t.rows == map[] && MarkOf(second) != MarkOf(changed)
    requires t.catalog == map[1 := Entry(1, version, MarkOf(first)), 2 := Entry(2, version, MarkOf(second))]
    ensures Renewed(t, version, map[1 := first, 2 := changed]) ==
      Tables(map[1 := RowOf(2, changed)],
        map[1 := Entry(1, version, MarkOf(first)), 2 := Entry(1, version, MarkOf(changed))])
  {
    var selection := map[1 := first, 2 := changed];
    assert selection.Keys == {1, 2} && t.catalog.Keys == {1, 2};
    assert Placed(t, version, 1, first) == t;
    assert t.rows - {2} == map[] && (t.rows - {2}).Keys == {};
    var after := Placed(t, version, 2, changed);
    assert after.rows == map[1 := RowOf(2, changed)];
    assert Least({1, 2}) == 1 && {1, 2} - {1} == {2} && Least({2}) == 2 && {2} - {2} == {};
    assert Updated(after, version, selection, {}) == after;
    assert Updated(t, version, selection, {2}) == after;
    assert Updated(t, version, selection, {1, 2}) == after;
    assert t.catalog.Keys - selection.Keys == {};
    assert Pruned(after, {}) == after;
  }

  /** Deselecting the first document deletes row 1, which is the second's. */
  lemma {:induction false} RowStruck(t: Tables, version: nat, changed: Record)
    requires t.rows == map[1 := RowOf(2, changed)] && t.catalog.Keys == {1, 2} && t.catalog[1].row == 1
    requires t.catalog[2] == Entry(1, version, MarkOf(changed))
    ensures
      var after := Renewed(t, version, map[2 := changed]);
      2 in after.catalog && !after.Found(2)
  {
    var selection := map[2 := changed];
    assert selection.Keys == {2} && Least({2}) == 2 && {2} - {2} == {};
    assert Placed(t, version, 2, changed) == t && Updated(t, version, selection, {}) == t;
    assert Updated(t, version, selection, {2}) == t;
    assert 1 in t.catalog.Keys - selection.Keys && t.catalog[1].row == 1;
  }

  /** The second document has been indexed again, under the row id named for the first. */
  function RowReused(version: nat, first: Record, changed: Record): Database {
    Database(Some(version), Some(FingerprintOf(version, map[1 := first, 2 := changed])),
      Tables(map[1 := RowOf(2, changed)],
        map[1 := Entry(1, version, MarkOf(first)), 2 := Entry(1, version, MarkOf(changed))]))
  }

  lemma {:induction false} ThenReindexed(version: nat, openings: seq<Opening>, first: Record, second: Record,
      changed: Record)
    requires After(openings) == HalfDropped(version, first, second) && MarkOf(second) != MarkOf(changed)
    ensures
      After(openings + [Opening(version, map[1 := first, 2 := changed], Ended)]) == RowReused(version, first, changed)
  {
    var next := map[1 := first, 2 := changed];
    var half := After(openings);
    Last(openings, Opening(version, next, Ended));
    assert half.stored.value.marks[2] == MarkOf(second) && FingerprintOf(version, next).marks[2] == MarkOf(changed);
    RowTaken(half.tables, version, first, second, changed);
  }

  lemma {:induction false} ThenDeselected(version: nat, openings: seq<Opening>, first: Record, changed: Record)
    requires After(openings) == RowReused(version, first, changed)
    ensures
      var db := After(openings + [Opening(version, map[2 := changed], Ended)]);
      && 2 in db.tables.catalog && !db.tables.Found(2)
      && Matches(db, version, map[2 := changed])
  {
    var last := map[2 := changed];
    var db := After(openings);
    Last(openings, Opening(version, last, Ended));
    assert 1 in db.stored.value.marks && 1 !in FingerprintOf(version, last).marks;
    RowStruck(db.tables, version, changed);
  }

  lemma IntactStays(openings: seq<Opening>, o: Opening)
    requires Intact(openings) && After(openings).schema == Some(o.version)
    ensures Intact(openings + [o])
  {
    assert (openings + [o])[..|openings|] == openings;
  }

  /** A version that dies between its two drops leaves a catalogue over no rows.  Of two
      documents, the one that is unchanged is not found from then on; the one that changed is
      indexed again under the row id that the catalogue still names for the other, and loses
      its row when the other is deselected, although the fingerprint matches throughout. */
  lemma {:induction false} DeathBetweenDropsLosesRows(version: nat, other: nat, first: Record, second: Record,
      changed: Record)
    returns (openings: seq<Opening>)
    requires version != other && MarkOf(second) != MarkOf(changed)
    ensures |openings| == 4 && openings[1] == Opening(other, map[], BetweenDrops)
    ensures openings[0] == Opening(version, map[1 := first, 2 := second], Ended)
    ensures openings[2] == Opening(version, map[1 := first, 2 := changed], Ended)
    ensures openings[3] == Opening(version, map[2 := changed], Ended)
    ensures Built(After(openings[..1]).tables, openings[0].selection)
    ensures !After(openings[..3]).tables.Found(1) && After(openings[..3]).tables.Found(2)
    ensures 2 in After(openings).tables.catalog && !After(openings).tables.Found(2)
    ensures Intact(openings) && Matches(After(openings), version, openings[3].selection)
  {
    var o0, o1 := Opening(version, map[1 := first, 2 := second], Ended), Opening(other, map[], BetweenDrops);
    var o2, o3 := Opening(version, map[1 := first, 2 := changed], Ended), Opening(version, map[2 := changed], Ended);
    openings := [o0, o1] + [o2] + [o3];
    assert openings[..1] == [o0] && openings[..3] == [o0, o1] + [o2];
    BuiltThenHalfDropped(version, other, first, second);
    ThenReindexed(version, [o0, o1], first, second, changed);
    ThenDeselected(version, openings[..3], first, changed);
    IntactStays([o0, o1], o2);
    IntactStays(openings[..3], o3);
  }

  // ----------------------------------------------------------------------
  // The code that works on the database
  // ----------------------------------------------------------------------

  /** The deadline passes before a document is reached, or its changed text cannot be read. */
  predicate Fails(catalog: map<Key, Entry>, key: Key, record: Record, readable: Key -> bool, timely: Key -> bool) {
    !timely(key) || (!Unchanged(catalog, key, record) && !readable(key))
  }

  lemma PrunedNothing(t: Tables)
    ensures Pruned(t, {}) == t
  {
    var p := Pruned(t, {});
    assert forall r <- t.rows :: r in p.rows;
    assert p.rows == t.rows && p.catalog == t.catalog;
  }

  lemma {:induction false} PrunedOne(t: Tables, done: set<Key>, key: Key)
    requires key in t.catalog && key !in done
    ensures
      var p := Pruned(t, done);
      && key in p.catalog && p.catalog[key] == t.catalog[key]
      && Pruned(t, done + {key}) == Tables(p.rows - {t.catalog[key].row}, p.catalog - {key})
  {
    var p := Pruned(t, done);
    var rowsOf := set k | k in t.catalog && k in done :: t.catalog[k].row;
    assert (set k | k in t.catalog && k in done + {key} :: t.catalog[k].row) == rowsOf + {t.catalog[key].row};
    assert p.rows - {t.catalog[key].row} == t.rows - (rowsOf + {t.catalog[key].row});
    assert p.catalog - {key} == t.catalog - (done + {key});
  }

  /** Where an update stands: all selected documents but `keys` are done, and `stale` are the
      earlier entries not met so far. */
  predicate Awaiting(before: map<Key, Entry>, catalog: map<Key, Entry>, selection: Selection, keys: set<Key>,
      stale: map<Key, Entry>) {
    && stale == before - (selection.Keys - keys)
    && (forall k <- stale :: k in catalog && catalog[k] == stale[k])
    && (forall k <- keys :: k in catalog ==> k in stale)
  }

  lemma AwaitingOn(before: map<Key, Entry>, catalog: map<Key, Entry>, selection: Selection, keys: set<Key>,
      stale: map<Key, Entry>, key: Key, next: map<Key, Entry>)
    requires Awaiting(before, catalog, selection, keys, stale) && key in keys && keys <= selection.Keys
    requires next.Keys == catalog.Keys + {key} && forall k <- catalog | k != key :: next[k] == catalog[k]
    ensures Awaiting(before, next, selection, keys - {key}, stale - {key})
  {
    assert selection.Keys - (keys - {key}) == (selection.Keys - keys) + {key};
    assert stale - {key} == before - ((selection.Keys - keys) + {key});
  }

  class Index {
    /** The version of the running code. */
    const version: nat
    var schema: Option<nat>
    var stored: Option<Fingerprint>
    var rows: map<nat, Row>
    var catalog: map<Key, Entry>

    function Image(): Database
      reads this
    {
      Database(schema, stored, Tables(rows, catalog))
    }

    /** Connects to a database that openings of any versions have left. */
    constructor (version: nat, db: Database)
      ensures this.version == version && Image() == db
    {
      this.version := version;
      schema, stored, rows, catalog := db.schema, db.stored, db.tables.rows, db.tables.catalog;
    }

    /** Creates the tables, dropping those of another version: each drop takes effect by
        itself, and the call may stop after either. */
    method Configure(result: Result) returns (stopped: bool)
      modifies this`schema, this`rows, this`catalog
      ensures Image() == Configured(old(Image()), version, result)
      ensures stopped <==> old(schema) != Some(version) && (result.BetweenDrops? || result.Dropped?)
    {
      stopped := false;
      if schema != Some(version) {
        rows := map[];
        stopped := result.BetweenDrops?;
        if !stopped {
          catalog := map[];
          stopped := result.Dropped?;
        }
      }
      if !stopped {
        schema := Some(version);
      }
    }

    /** Replaces the row of one document, unless its mark is unchanged. */
    method Put(key: Key, record: Record, previous: Option<Entry>)
      requires previous == if key in catalog then Some(catalog[key]) else None
      modifies this`rows, this`catalog
      ensures Tables(rows, catalog) == Placed(old(Tables(rows, catalog)), version, key, record)
      ensures catalog.Keys == old(catalog).Keys + {key}
      ensures forall k <- old(catalog) | k != key :: catalog[k] == old(catalog)[k]
    {
      if previous.None? || previous.value.mark != MarkOf(record) {
        if previous.Some? {
          rows := rows - {previous.value.row};
        }
        var row := NextRow(rows.Keys);
        rows := rows[row := RowOf(key, record)];
        catalog := catalog[key := Entry(row, version, MarkOf(record))];
      }
    }

    /** Indexes every selected document whose mark changed; the entries left over are
        stale. */
    method Update(selection: Selection, readable: Key -> bool, timely: Key -> bool)
      returns (failed: bool, stale: map<Key, Entry>)
      modifies this`rows, this`catalog
      ensures !failed ==>
        && Tables(rows, catalog) == Updated(old(Tables(rows, catalog)), version, selection, selection.Keys)
        && stale == old(catalog) - selection.Keys
        && forall k <- stale :: k in catalog && catalog[k] == stale[k]
      ensures failed <==> exists k <- selection :: Fails(old(catalog), k, selection[k], readable, timely)
    {
      stale := catalog;
      var keys := selection.Keys;
      while keys != {}
        invariant keys <= selection.Keys && Awaiting(old(catalog), catalog, selection, keys, stale)
        invariant Updated(Tables(rows, catalog), version, selection, keys) ==
          Updated(old(Tables(rows, catalog)), version, selection, selection.Keys)
        invariant forall k <- selection | k !in keys :: !Fails(old(catalog), k, selection[k], readable, timely)
        decreases |keys|
      {
        var key := Least(keys);
        if Fails(stale, key, selection[key], readable, timely) {
          return true, stale;
        }
        ghost var prior := catalog;
        Put(key, selection[key], if key in stale then Some(stale[key]) else None);
        AwaitingOn(old(catalog), prior, selection, keys, stale, key, catalog);
        stale, keys := stale - {key}, keys - {key};
      }
      failed := false;
    }

    /** Deletes the row an entry names, and the entry. */
    method Delete(key: Key, entry: Entry, ghost before: Tables, ghost done: set<Key>)
      requires key in before.catalog && before.catalog[key] == entry && key !in done
      requires Tables(rows, catalog) == Pruned(before, done)
      modifies this`rows, this`catalog
      ensures Tables(rows, catalog) == Pruned(before, done + {key})
    {
      PrunedOne(before, done, key);
      rows := rows - {entry.row};
      catalog := catalog - {key};
    }

    /** Removes stale entries, and the rows they name. */
    method Prune(stale: map<Key, Entry>)
      requires forall k <- stale :: k in catalog && catalog[k] == stale[k]
      modifies this`rows, this`catalog
      ensures Tables(rows, catalog) == Pruned(old(Tables(rows, catalog)), stale.Keys)
    {
      ghost var before := Tables(rows, catalog);
      var keys := stale.Keys;
      PrunedNothing(before);
      while keys != {}
        invariant keys <= stale.Keys
        invariant Tables(rows, catalog) == Pruned(before, stale.Keys - keys)
        decreases keys
      {
        var key :| key in keys;
        Delete(key, stale[key], before, stale.Keys - keys);
        assert stale.Keys - keys + {key} == stale.Keys - (keys - {key});
        keys := keys - {key};
      }
      assert stale.Keys - {} == stale.Keys;
    }

    /** Brings the index up to date with the selection, in one transaction: on any failure
        it is as it was.  Only documents whose mark changed are read again. */
    method Rebuild(selection: Selection, readable: Key -> bool, timely: Key -> bool) returns (failed: bool)
      modifies this`rows, this`catalog, this`stored
      ensures Image() == if failed then old(Image()) else Rebuilt(old(Image()), version, selection)
      ensures failed <==> exists k <- selection ::
        !timely(k) || ((k !in old(catalog) || old(catalog)[k].mark != MarkOf(selection[k])) && !readable(k))
    {
      var savedRows, savedCatalog := rows, catalog;
      var stale;
      failed, stale := Update(selection, readable, timely);
      if failed {
        rows, catalog := savedRows, savedCatalog;
      } else {
        Prune(stale);
        stored := Some(FingerprintOf(version, selection));
      }
    }

    /** An opening for a query: it stops while the tables are configured, fails with them
        configured, or answers. */
    method Prepare(selection: Selection, result: Result, readable: Key -> bool, timely: Key -> bool)
      returns (failed: bool)
      modifies this
      ensures
        var stopped := old(schema) != Some(version) && (result.BetweenDrops? || result.Dropped?);
        var end := if stopped then result else if failed then Died else Ended;
        && Image() == Opened(old(Image()), Opening(version, selection, end))
        && (failed <==>
              || stopped
              || (old(stored) != Some(FingerprintOf(version, selection))
                  && exists k <- selection ::
                       !timely(k)
                       || (!Unchanged(Configured(old(Image()), version, Ended).tables.catalog, k, selection[k])
                           && !readable(k))))
      ensures !failed && old(Image()).Sound() && Ready(Configured(old(Image()), version, Ended), version) ==>
        Built(Tables(rows, catalog), selection)
    {
      ghost var before := Image();
      failed := Configure(result);
      if !failed {
        assert Image() == Configured(before, version, Ended);
        if stored != Some(FingerprintOf(version, selection)) {
          failed := Rebuild(selection, readable, timely);
        }
      }
      if !failed && before.Sound() && Ready(Configured(before, version, Ended), version) {
        ReadyMeansAlwaysBuilt(before, version);
        assert Built(Answered(before, version, selection).tables, selection);
      }
    }
  }
}
