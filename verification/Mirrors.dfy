/** Two copies of the loyalty tables outside the main database: a local one that deletes
    and inserts, and a cloud one that may only insert or overwrite rows. */
module Mirrors {
  import opened Wrappers
  import opened Schema
  import opened Capture
  import opened Snapshots

  datatype Shelf = Members | Referrals | Postings | Context

  const SHELVES := [Members, Referrals, Postings, Context]

  function ShelfOf(table: Table): Shelf
  {
    if table == MEMBER then Members else if table == REFERRAL then Referrals
    else if table == LEDGER then Postings else Context
  }

  /** Where a row is stored: the mirror's table and the row's key in it. */
  datatype Slot = Slot(shelf: Shelf, key: Key)

  function Home(r: Record): Slot { Slot(ShelfOf(r.key.table), r.key) }

  type Tables = map<Slot, Record>

  datatype Manifest = Manifest(source: string, capturedAt: int, digest: int)

  datatype Disk = Disk(tables: Tables, manifest: Option<Manifest>)

  datatype Status = Status(ok: Option<bool>, lastAttempt: int, lastSuccess: Option<int>, code: Option<Code>)

  function ManifestOf(s: Snapshot): Manifest { Manifest(s.source, s.capturedAt, s.digest) }

  // ----- What a mirror's tables say -----

  ghost function Shown(tables: Tables): set<Key> { set slot | slot in tables :: tables[slot].key }

  ghost predicate OneSlotEach(tables: Tables)
  {
    forall a, b | a in tables && b in tables && tables[a].key == tables[b].key :: a == b
  }

  /** The tables hold exactly the rows of db. */
  ghost predicate Shows(tables: Tables, db: Rows)
  {
    && OneSlotEach(tables) && db.Keys == Shown(tables)
    && (forall slot | slot in tables :: db[tables[slot].key] == tables[slot])
  }

  /** Every row is in its own slot. */
  predicate Filed(tables: Tables) { forall slot | slot in tables :: slot == Home(tables[slot]) }

  /** The rows of db, each in its slot. */
  ghost function Filing(db: Rows): Tables
  {
    map slot | slot in (set k | k in db :: Slot(ShelfOf(k.table), k)) :: db[slot.key]
  }

  lemma FilingShows(db: Rows)
    requires KeyedRows(db)
    ensures Filed(Filing(db)) && Shows(Filing(db), db)
  {
    var tables := Filing(db);
    forall k | k in db ensures k in Shown(tables) {
      assert tables[Slot(ShelfOf(k.table), k)] == db[k];
    }
  }

  /** Rows that are all in their own slots are the filing of what they show. */
  lemma FiledIsFiling(tables: Tables, db: Rows)
    requires Filed(tables) && Shows(tables, db)
    ensures tables == Filing(db)
  {
  }

  /** The mirror holds this snapshot, in capture order. */
  ghost predicate Stores(h: Hash, disk: Disk, s: Snapshot)
  {
    && Valid(h, s) && s == Canonical(h, s)
    && disk.manifest == Some(ManifestOf(s)) && Shows(disk.tables, Indexed(s.records))
  }

  predicate Blank(disk: Disk) { disk == Disk(map[], None) }

  /** What reading the mirror yields. */
  ghost predicate Reads(h: Hash, disk: Disk, found: Option<Snapshot>)
  {
    if found.None? then Blank(disk) else Stores(h, disk, found.value)
  }

  lemma ShowsOneThing(tables: Tables, a: Rows, b: Rows)
    requires Shows(tables, a) && Shows(tables, b)
    ensures a == b
  {
  }

  lemma CanonicalByRows(h: Hash, a: Snapshot, b: Snapshot)
    requires DistinctKeys(a.records) && DistinctKeys(b.records)
    requires a == Canonical(h, a) && b == Canonical(h, b)
    requires Indexed(a.records) == Indexed(b.records) && ManifestOf(a) == ManifestOf(b)
    ensures a == b
  {}

  lemma ReadsOneThing(h: Hash, disk: Disk, a: Option<Snapshot>, b: Option<Snapshot>)
    requires Reads(h, disk, a) && Reads(h, disk, b)
    ensures a == b
  {
    if a.Some? && b.Some? {
      ShowsOneThing(disk.tables, Indexed(a.value.records), Indexed(b.value.records));
      CanonicalByRows(h, a.value, b.value);
    }
  }

  /** Collects the stored rows by key, unless two slots hold the same key. */
  method Gather(tables: Tables) returns (r: Result<Rows, Code>)
    ensures r.Ok? <==> OneSlotEach(tables)
    ensures r.Ok? ==> Shows(tables, r.value)
  {
    var rest, db: Rows := tables.Keys, map[];
    while rest != {}
      invariant rest <= tables.Keys
      invariant db.Keys == set slot | slot in tables && slot !in rest :: tables[slot].key
      invariant forall slot | slot in tables && slot !in rest :: db[tables[slot].key] == tables[slot]
      invariant forall a, b | a in tables && b in tables && a !in rest && b !in rest && tables[a].key == tables[b].key :: a == b
    {
      var slot :| slot in rest;
      var row := tables[slot];
      if row.key in db { return Err(DuplicateRecord); }
      db, rest := db[row.key := row], rest - {slot};
    }
    return Ok(db);
  }

  /** The stored rows in capture order, under the manifest. */
  function Assembled(manifest: Manifest, db: Rows): Snapshot
  {
    Snapshot(manifest.source, manifest.capturedAt, Listed(db), manifest.digest)
  }

  lemma AssembledIsCanonical(h: Hash, manifest: Manifest, db: Rows)
    requires KeyedRows(db)
    ensures var s := Assembled(manifest, db);
      && DistinctKeys(s.records) && Indexed(s.records) == db
      && (manifest.digest == h(s.source, s.capturedAt, s.records) ==> s == Canonical(h, s))
  {
    ListedIndexes(db);
    var records := Listed(db);
    IndexIsUnique(db, Indexed(records), records);
  }

  /** Only the assembled rows can be what the mirror stores. */
  lemma StoresOnlyAssembled(h: Hash, disk: Disk, db: Rows, s: Snapshot)
    requires Shows(disk.tables, db) && Stores(h, disk, s)
    ensures s == Assembled(disk.manifest.value, db)
  {
    ShowsOneThing(disk.tables, db, Indexed(s.records));
    assert s.records == Listed(Indexed(s.records));
  }

  lemma AssembledIsStored(h: Hash, disk: Disk, db: Rows)
    requires disk.manifest.Some? && Shows(disk.tables, db)
    ensures Valid(h, Assembled(disk.manifest.value, db)) <==> Stores(h, disk, Assembled(disk.manifest.value, db))
  {
    AssembledIsCanonical(h, disk.manifest.value, db);
  }

  /** Puts the stored rows in capture order under the manifest and checks the result. */
  method ReadDisk(h: Hash, disk: Disk) returns (r: Result<Option<Snapshot>, Code>)
    ensures r.Ok? ==> Reads(h, disk, r.value)
    ensures r.Err? ==> forall found :: !Reads(h, disk, found)
  {
    if disk.manifest.None? {
      return if disk.tables == map[] then Ok(None) else Err(MissingManifest);
    }
    var gathered := Gather(disk.tables);
    if gathered.Err? {
      NothingStored(h, disk);
      return Err(gathered.error);
    }
    var db := gathered.value;
    var s := Assembled(disk.manifest.value, db);
    AssembledIsStored(h, disk, db);
    var validated := Validate(h, s);
    if validated.Err? {
      NothingElseStored(h, disk, db);
      return Err(validated.error);
    }
    return Ok(Some(s));
  }

  lemma NothingStored(h: Hash, disk: Disk)
    requires disk.manifest.Some? && !OneSlotEach(disk.tables)
    ensures forall found :: !Reads(h, disk, found)
  {
  }

  lemma NothingElseStored(h: Hash, disk: Disk, db: Rows)
    requires disk.manifest.Some? && Shows(disk.tables, db)
    requires !Valid(h, Assembled(disk.manifest.value, db))
    ensures forall found :: !Reads(h, disk, found)
  {
    forall found ensures !Reads(h, disk, found) {
      if Reads(h, disk, found) {
        StoresOnlyAssembled(h, disk, db, found.value);
        assert false;
      }
    }
  }

  lemma {:induction false} SlotsCount(tables: Tables, slots: set<Slot>)
    requires OneSlotEach(tables) && slots <= tables.Keys
    ensures |set slot | slot in slots :: tables[slot].key| == |slots|
    decreases slots
  {
    if slots != {} {
      var x :| x in slots;
      SlotsCount(tables, slots - {x});
      var keys, rest := set slot | slot in slots :: tables[slot].key, set slot | slot in slots - {x} :: tables[slot].key;
      assert tables[x].key !in rest;
      assert keys == rest + {tables[x].key};
    }
  }

  lemma StoredCount(tables: Tables, db: Rows, records: seq<Record>)
    requires Shows(tables, db) && DistinctKeys(records) && Indexes(db, records)
    ensures |tables| == |records|
  {
    SlotsCount(tables, tables.Keys);
    DistinctKeysCount(records);
    assert Shown(tables) == set slot | slot in tables.Keys :: tables[slot].key;
    assert |tables.Keys| == |tables|;
  }

  lemma StoredIsSmall(h: Hash, disk: Disk, s: Snapshot)
    requires Stores(h, disk, s)
    ensures |disk.tables| <= MAX_ROWS
  {
    StoredCount(disk.tables, Indexed(s.records), s.records);
  }

  /** More rows than the limit never read as an accepted snapshot. */
  lemma TooManyRows(h: Hash, disk: Disk)
    requires |disk.tables| > MAX_ROWS
    ensures forall found :: !Reads(h, disk, found)
  {
    forall s: Snapshot | Stores(h, disk, s) ensures false {
      StoredIsSmall(h, disk, s);
    }
    assert !Blank(disk);
  }

  // ----- What one update does -----

  /** The snapshot is accepted over what the mirror holds. */
  ghost predicate Follows(h: Hash, disk: Disk, s: Snapshot)
  {
    exists found :: Reads(h, disk, found) && MayFollow(h, found, s)
  }

  ghost predicate LocalAccepts(h: Hash, disk: Disk, s: Snapshot)
  {
    Valid(h, s) && Follows(h, disk, Canonical(h, s))
  }

  /** The mirror after an accepted snapshot: its rows and nothing else, sealed in capture order. */
  ghost function Holding(h: Hash, s: Snapshot): Disk
    requires DistinctKeys(s.records)
  {
    Disk(Filing(Indexed(s.records)), Some(ManifestOf(Canonical(h, s))))
  }

  ghost function LocalNext(h: Hash, disk: Disk, s: Snapshot): Disk
  {
    if LocalAccepts(h, disk, s) then Holding(h, s) else disk
  }

  /** The seal was taken over the rows in capture order. */
  ghost predicate SealedInOrder(h: Hash, s: Snapshot)
    requires DistinctKeys(s.records)
  {
    s.digest == Canonical(h, s).digest
  }

  /** What the cloud mirror's own reading yields. */
  ghost predicate CloudReads(h: Hash, source: string, disk: Disk, found: Option<Snapshot>)
  {
    Filed(disk.tables) && Reads(h, disk, found) && (found.Some? ==> found.value.source == source)
  }

  lemma OneReading(h: Hash, disk: Disk, found: Option<Snapshot>)
    requires Reads(h, disk, found)
    ensures forall other :: Reads(h, disk, other) ==> other == found
  {
    forall other | Reads(h, disk, other) ensures other == found {
      ReadsOneThing(h, disk, other, found);
    }
  }

  lemma FollowsWhatWasRead(h: Hash, disk: Disk, found: Option<Snapshot>, s: Snapshot)
    requires Reads(h, disk, found)
    ensures Follows(h, disk, s) <==> MayFollow(h, found, s)
  {
    OneReading(h, disk, found);
  }

  /** A snapshot of this source follows a mirror only if the mirror's own reading works. */
  lemma NothingToFollow(h: Hash, source: string, disk: Disk, s: Snapshot)
    requires s.source == source && forall found :: !CloudReads(h, source, disk, found)
    ensures !CloudFollows(h, disk, s)
  {
    forall found | Filed(disk.tables) && Reads(h, disk, found) ensures !MayFollow(h, found, s) {
      assert !CloudReads(h, source, disk, found);
    }
  }

  ghost predicate CloudAccepts(h: Hash, source: string, disk: Disk, s: Snapshot)
  {
    CloudMayWrite(h, source, disk, s) && SealedInOrder(h, s)
  }

  /** A valid snapshot of this source that follows what the mirror holds. */
  ghost predicate CloudMayWrite(h: Hash, source: string, disk: Disk, s: Snapshot)
  {
    Valid(h, s) && s.source == source && CloudFollows(h, disk, s)
  }

  /** A successful update reports the totals of the snapshot's ledger. */
  ghost predicate Reported(s: Snapshot, r: Result<Report, Code>)
  {
    r.Ok? ==> DistinctKeys(s.records) && r.value == ReportOf(Indexed(s.records))
  }

  ghost predicate CloudFollows(h: Hash, disk: Disk, s: Snapshot)
  {
    Filed(disk.tables) && Follows(h, disk, s)
  }

  ghost function CloudNext(h: Hash, source: string, disk: Disk, s: Snapshot): Disk
  {
    if CloudAccepts(h, source, disk, s) then Holding(h, s) else disk
  }

  // ----- Overwriting without deleting -----

  /** Writing all rows of one snapshot over another leaves what deleting first would have
      left, exactly when no row of the earlier one has disappeared. */
  lemma UpsertRefinesReplace(before: Rows, after: Rows)
    ensures Filing(before) + Filing(after) == map[] + Filing(after) <==> before.Keys <= after.Keys
  {
    if before.Keys <= after.Keys {
      forall slot | slot in Filing(before) ensures slot in Filing(after) {
        assert slot.key in after;
      }
    } else {
      var k :| k in before && k !in after;
      var slot := Slot(ShelfOf(k.table), k);
      assert slot in Filing(before) + Filing(after);
      assert slot !in map[] + Filing(after);
    }
  }

  lemma UpsertOverNothing(rows: Tables)
    ensures map[] + rows == rows
  {
  }

  /** What the upsert leaves on tables that show an earlier snapshot. */
  lemma UpsertOverShown(tables: Tables, before: Rows, after: Rows)
    requires Filed(tables) && Shows(tables, before) && RowsExtend(before, after)
    ensures tables + Filing(after) == Filing(after)
  {
    FiledIsFiling(tables, before);
    UpsertRefinesReplace(before, after);
    UpsertOverNothing(Filing(after));
    assert before.Keys <= after.Keys;
  }

  lemma UpsertOverFound(h: Hash, disk: Disk, found: Option<Snapshot>, s: Snapshot)
    requires Filed(disk.tables) && Reads(h, disk, found) && MayFollow(h, found, s)
    ensures disk.tables + Filing(Indexed(s.records)) == Filing(Indexed(s.records))
  {
    if found.Some? {
      UpsertOverShown(disk.tables, Indexed(found.value.records), Indexed(s.records));
    } else {
      UpsertOverNothing(Filing(Indexed(s.records)));
    }
  }

  /** What the upsert leaves on a mirror that the snapshot follows. */
  lemma UpsertLeavesRows(h: Hash, disk: Disk, s: Snapshot)
    requires DistinctKeys(s.records) && CloudFollows(h, disk, s)
    ensures disk.tables + Filing(Indexed(s.records)) == Filing(Indexed(s.records))
  {
    var found :| Reads(h, disk, found) && MayFollow(h, found, s);
    UpsertOverFound(h, disk, found, s);
  }

  /** Reading back what was written returns the snapshot in capture order exactly when the
      seal in the manifest is the seal of that order. */
  lemma ReadbackReturnsSnapshot(h: Hash, disk: Disk, s: Snapshot)
    requires Valid(h, s) && disk == Disk(Filing(Indexed(s.records)), Some(ManifestOf(s)))
    ensures SealedInOrder(h, s) ==> Stores(h, disk, Canonical(h, s))
    ensures !SealedInOrder(h, s) ==> forall found :: !Reads(h, disk, found)
  {
    var db := Indexed(s.records);
    CanonicalIsValid(h, s);
    FilingShows(db);
    if !SealedInOrder(h, s) {
      assert Canonical(h, s).records == Assembled(ManifestOf(s), db).records;
      NothingElseStored(h, disk, db);
    }
  }

  lemma HoldingStores(h: Hash, s: Snapshot)
    requires Valid(h, s)
    ensures Stores(h, Holding(h, s), Canonical(h, s))
  {
    CanonicalIsValid(h, s);
    FilingShows(Indexed(s.records));
  }

  /** The local mirror reads back exactly what it wrote. */
  lemma LocalReadback(h: Hash, sealed: Snapshot, disk: Disk, r: Result<Option<Snapshot>, Code>)
    requires Valid(h, sealed) && sealed == Canonical(h, sealed) && disk == Holding(h, sealed)
    requires r.Ok? ==> Reads(h, disk, r.value)
    requires r.Err? ==> forall found :: !Reads(h, disk, found)
    ensures r == Ok(Some(sealed))
  {
    HoldingStores(h, sealed);
    assert Reads(h, disk, Some(sealed));
    if r.Ok? {
      ReadsOneThing(h, disk, r.value, Some(sealed));
    }
  }

  /** The cloud mirror reads back what it wrote exactly when the seal is that of capture order. */
  lemma CloudReadback(h: Hash, source: string, disk: Disk, s: Snapshot)
    requires Valid(h, s) && s.source == source
    requires disk == Disk(Filing(Indexed(s.records)), Some(ManifestOf(s)))
    ensures forall found :: CloudReads(h, source, disk, found) <==> SealedInOrder(h, s) && found == Some(Canonical(h, s))
    ensures SealedInOrder(h, s) ==> disk == Holding(h, s)
  {
    FilingShows(Indexed(s.records));
    ReadbackReturnsSnapshot(h, disk, s);
    if SealedInOrder(h, s) {
      OneReading(h, disk, Some(Canonical(h, s)));
    }
  }
}
