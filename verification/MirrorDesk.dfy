/** The two mirrors as they are written: the local one deletes and inserts, the cloud one
    overwrites table by table; both read their own work back before it counts. */
module MirrorDesk {
  import opened Wrappers
  import opened Schema
  import opened Capture
  import opened Snapshots
  import opened Mirrors

  /** The rows of the listed tables. */
  ghost function Part(t: Tables, shelves: seq<Shelf>): Tables
  {
    map slot | slot in t && slot.shelf in shelves :: t[slot]
  }

  lemma PartGrows(t: Tables, shelves: seq<Shelf>, shelf: Shelf)
    ensures Part(t, shelves) + Part(t, [shelf]) == Part(t, shelves + [shelf])
  {
  }

  lemma EveryShelf()
    ensures forall shelf: Shelf :: shelf in SHELVES
  {
    forall shelf: Shelf ensures shelf in SHELVES {
      match shelf
      case Members => assert SHELVES[0] == shelf;
      case Referrals => assert SHELVES[1] == shelf;
      case Postings => assert SHELVES[2] == shelf;
      case Context => assert SHELVES[3] == shelf;
    }
  }

  lemma WholePart(t: Tables)
    ensures Part(t, SHELVES) == t && Part(t, []) == map[]
  {
    EveryShelf();
  }

  lemma Overlay(before: Tables, a: Tables, b: Tables)
    ensures before + a + b == before + (a + b)
    ensures map[] + a == a && a + map[] == a
  {
  }

  lemma OverlayOne(before: Tables, more: Tables, slot: Slot, r: Record)
    ensures (before + more)[slot := r] == before + more[slot := r]
  {
  }

  /** Home slots of the rows on one table, among the first n rows. */
  ghost function Homes(records: seq<Record>, n: nat, shelf: Shelf): set<Slot>
    requires n <= |records|
  {
    set i | 0 <= i < n && ShelfOf(records[i].key.table) == shelf :: Home(records[i])
  }

  lemma AllHomes(records: seq<Record>, db: Rows, shelf: Shelf, written: Tables)
    requires Indexes(db, records) && written.Keys == Homes(records, |records|, shelf)
    requires forall slot | slot in written :: slot.key in db && written[slot] == db[slot.key]
    ensures written == Part(Filing(db), [shelf])
  {
  }

  /** Inserts or overwrites the rows of one table. */
  method UpsertShelf(tables: Tables, records: seq<Record>, shelf: Shelf, ghost db: Rows) returns (after: Tables)
    requires Indexes(db, records)
    ensures after == tables + Part(Filing(db), [shelf])
  {
    after := tables;
    ghost var written: Tables := map[];
    Overlay(tables, map[], map[]);
    var j := 0;
    while j < |records|
      invariant 0 <= j <= |records|
      invariant after == tables + written && written.Keys == Homes(records, j, shelf)
      invariant forall slot | slot in written :: slot.key in db && written[slot] == db[slot.key]
    {
      var row := records[j];
      if ShelfOf(row.key.table) == shelf {
        OverlayOne(tables, written, Home(row), row);
        after := after[Home(row) := row];
        written := written[Home(row) := row];
      }
      j := j + 1;
    }
    AllHomes(records, db, shelf, written);
  }

  /** Reads back what was just written; it cannot fail. */
  method ReadOwn(h: Hash, disk: Disk, ghost sealed: Snapshot) returns (report: Report)
    requires Valid(h, sealed) && sealed == Canonical(h, sealed) && disk == Holding(h, sealed)
    ensures report == ReportOf(Indexed(sealed.records))
  {
    var readback := ReadDisk(h, disk);
    LocalReadback(h, sealed, disk, readback);
    var validated := Validate(h, readback.value.value);
    report := validated.value;
  }

  class LocalMirror {
    const hash: Hash
    var tables: Tables
    var manifest: Option<Manifest>
    var status: Status

    constructor (hash: Hash)
      ensures this.hash == hash && Blank(State()) && Honest() && status == Status(None, 0, None, None)
    {
      this.hash := hash;
      tables, manifest, status := map[], None, Status(None, 0, None, None);
    }

    function State(): Disk reads this { Disk(tables, manifest) }

    /** Empties the four tables. */
    method DeleteRows()
      modifies this`tables
      ensures tables == map[]
    {
      var j := 0;
      while j < |SHELVES|
        invariant 0 <= j <= |SHELVES|
        invariant forall slot | slot in tables :: slot.shelf !in SHELVES[..j]
      {
        tables := map slot | slot in tables && slot.shelf != SHELVES[j] :: tables[slot];
        j := j + 1;
      }
      assert SHELVES[..j] == SHELVES;
      EveryShelf();
    }

    method InsertRows(records: seq<Record>, ghost db: Rows)
      requires tables == map[] && Indexes(db, records)
      modifies this`tables
      ensures tables == Filing(db)
    {
      var j := 0;
      while j < |records|
        invariant 0 <= j <= |records|
        invariant tables.Keys == set i | 0 <= i < j :: Home(records[i])
        invariant forall slot | slot in tables :: slot.key in db && tables[slot] == db[slot.key]
      {
        tables := tables[Home(records[j]) := records[j]];
        j := j + 1;
      }
      forall slot | slot in Filing(db) ensures slot in tables {
        assert slot.key in Keys(records);
        var i :| 0 <= i < |records| && records[i].key == slot.key;
        assert Home(records[i]) == slot;
      }
      forall slot | slot in tables ensures slot in Filing(db) {
        var i :| 0 <= i < |records| && Home(records[i]) == slot;
        assert records[i].key in db;
      }
    }

    /** Validates, reseals in capture order and compares with what is stored. */
    method Prepare(s: Snapshot) returns (r: Result<(Snapshot, Rows), Code>)
      ensures r.Ok? <==> LocalAccepts(hash, State(), s)
      ensures r.Ok? ==> r.value == (Canonical(hash, s), Indexed(s.records))
    {
      var validated := Validate(hash, s);
      if validated.Err? { return Err(validated.error); }
      var indexed := Index(s.records);
      IndexIsUnique(indexed.value, Indexed(s.records), s.records);
      var records := Listed(indexed.value);
      var sealed := Snapshot(s.source, s.capturedAt, records, hash(s.source, s.capturedAt, records));
      r := CompareStored(sealed, indexed.value);
    }

    method CompareStored(sealed: Snapshot, db: Rows) returns (r: Result<(Snapshot, Rows), Code>)
      ensures r.Ok? <==> Follows(hash, State(), sealed)
      ensures r.Ok? ==> r.value == (sealed, db)
    {
      var found := ReadDisk(hash, State());
      if found.Err? { return Err(found.error); }
      var compared := Compare(hash, found.value, sealed);
      FollowsWhatWasRead(hash, State(), found.value, sealed);
      return if compared.Ok? then Ok((sealed, db)) else Err(compared.error);
    }

    /** Replaces everything and reads it back. */
    method Commit(sealed: Snapshot, db: Rows) returns (r: Result<Report, Code>)
      requires Valid(hash, sealed) && sealed == Canonical(hash, sealed) && db == Indexed(sealed.records)
      modifies this`tables, this`manifest
      ensures State() == Disk(Filing(db), Some(ManifestOf(sealed)))
      ensures r == Ok(ReportOf(db))
    {
      DeleteRows();
      InsertRows(sealed.records, db);
      manifest := Some(ManifestOf(sealed));
      assert State() == Holding(hash, sealed);
      var report := ReadOwn(hash, State(), sealed);
      r := Ok(report);
    }

    /** Replaces the stored rows, or leaves rows and manifest alone. */
    method Replace(s: Snapshot) returns (r: Result<Report, Code>)
      modifies this`tables, this`manifest
      ensures r.Ok? <==> LocalAccepts(hash, old(State()), s)
      ensures State() == LocalNext(hash, old(State()), s)
      ensures Reported(s, r)
    {
      var prepared := Prepare(s);
      if prepared.Err? { return Err(prepared.error); }
      CanonicalIsValid(hash, s);
      r := Commit(prepared.value.0, prepared.value.1);
    }

    /** The mirror reports a success exactly when it holds a snapshot. */
    predicate Honest()
      reads this
    {
      && (status.lastSuccess.Some? <==> manifest.Some?)
      && (status.ok == Some(true) ==> manifest.Some?)
    }

    method Update(s: Snapshot, now: int) returns (r: Result<Report, Code>)
      requires Honest()
      modifies this
      ensures Honest()
      ensures r.Ok? <==> LocalAccepts(hash, old(State()), s)
      ensures State() == LocalNext(hash, old(State()), s)
      ensures Reported(s, r)
      ensures status == if r.Ok? then Status(Some(true), now, Some(now), None)
                        else Status(Some(false), now, old(status.lastSuccess), Some(r.error))
    {
      r := Replace(s);
      status := if r.Ok? then Status(Some(true), now, Some(now), None)
                else status.(ok := Some(false), lastAttempt := now, code := Some(r.error));
    }
  }

  class CloudMirror {
    const hash: Hash
    const source: string
    var tables: Tables
    var manifest: Option<Manifest>
    var status: Status

    constructor (hash: Hash, source: string)
      ensures this.hash == hash && this.source == source
      ensures Blank(State()) && Honest() && status == Status(None, 0, None, None)
    {
      this.hash, this.source := hash, source;
      tables, manifest, status := map[], None, Status(None, 0, None, None);
    }

    function State(): Disk reads this { Disk(tables, manifest) }

    /** Reads the stored snapshot, refusing rows outside their slot and other sources. */
    method Read() returns (r: Result<Option<Snapshot>, Code>)
      ensures r.Ok? ==> CloudReads(hash, source, State(), r.value)
      ensures r.Err? ==> forall found :: !CloudReads(hash, source, State(), found)
    {
      if !Filed(tables) { return Err(BadRecordKey); }
      if |tables| > MAX_ROWS {
        TooManyRows(hash, State());
        return Err(SizeLimit);
      }
      r := ReadDisk(hash, State());
      if r.Ok? && r.value.Some? && r.value.value.source != source {
        OneReading(hash, State(), r.value);
        return Err(DifferentSource);
      }
    }

    /** Writes the rows over the stored ones, table by table. */
    method WriteRows(records: seq<Record>, ghost db: Rows)
      requires Indexes(db, records)
      modifies this`tables
      ensures tables == old(tables) + Filing(db)
    {
      ghost var before, all := tables, Filing(db);
      WholePart(all);
      Overlay(before, all, map[]);
      Overlay(all, before, map[]);
      var j := 0;
      while j < |SHELVES|
        invariant 0 <= j <= |SHELVES|
        invariant tables == before + Part(all, SHELVES[..j])
      {
        tables := UpsertShelf(tables, records, SHELVES[j], db);
        Overlay(before, Part(all, SHELVES[..j]), Part(all, [SHELVES[j]]));
        PartGrows(all, SHELVES[..j], SHELVES[j]);
        assert SHELVES[..j] + [SHELVES[j]] == SHELVES[..j + 1];
        j := j + 1;
      }
      assert SHELVES[..j] == SHELVES;
    }

    /** Checks the snapshot and compares it with what is stored, under the lock. */
    method Check(s: Snapshot) returns (r: Result<(), Code>)
      ensures r.Ok? <==> CloudMayWrite(hash, source, State(), s)
    {
      var validated := Validate(hash, s);
      if validated.Err? { return Err(validated.error); }
      if s.source != source { return Err(DifferentSource); }
      var found := Read();
      if found.Err? {
        NothingToFollow(hash, source, State(), s);
        return Err(found.error);
      }
      FollowsWhatWasRead(hash, State(), found.value, s);
      r := Compare(hash, found.value, s);
    }

    /** Overwrites the rows and reads them back; a failed readback undoes the writes. */
    method Write(s: Snapshot) returns (r: Result<Report, Code>)
      requires CloudMayWrite(hash, source, State(), s)
      modifies this`tables, this`manifest
      ensures r.Ok? <==> SealedInOrder(hash, s)
      ensures State() == if SealedInOrder(hash, s) then Holding(hash, s) else old(State())
      ensures Reported(s, r)
    {
      var savedTables, savedManifest := tables, manifest;
      UpsertLeavesRows(hash, State(), s);
      WriteRows(s.records, Indexed(s.records));
      manifest := Some(ManifestOf(s));
      CloudReadback(hash, source, State(), s);
      var recovered := Read();
      if recovered.Err? || recovered.value.None? || recovered.value.value.digest != s.digest {
        assert !CloudReads(hash, source, State(), Some(Canonical(hash, s)));
        tables, manifest := savedTables, savedManifest;
        return Err(if recovered.Err? then recovered.error else IntegrityFailed);
      }
      CanonicalIsValid(hash, s);
      r := Validate(hash, recovered.value.value);
    }

    /** One transaction: check, compare, write, read back. */
    method Transact(s: Snapshot) returns (r: Result<Report, Code>)
      modifies this`tables, this`manifest
      ensures r.Ok? <==> CloudAccepts(hash, source, old(State()), s)
      ensures State() == CloudNext(hash, source, old(State()), s)
      ensures r.Ok? ==> manifest.Some?
      ensures Reported(s, r)
    {
      var checked := Check(s);
      if checked.Err? { return Err(checked.error); }
      r := Write(s);
    }

    /** Accepts exactly a valid snapshot of this mirror's database, sealed in capture order, that follows
        the stored one, and then holds its rows and nothing else. */
    method Update(s: Snapshot, now: int) returns (r: Result<Report, Code>)
      requires Honest()
      modifies this
      ensures Honest()
      ensures r.Ok? <==> CloudAccepts(hash, source, old(State()), s)
      ensures State() == CloudNext(hash, source, old(State()), s)
      ensures Reported(s, r)
      ensures r.Ok? ==> status == Status(Some(true), now, Some(now), None)
      ensures r.Err? ==> status == old(status)
    {
      r := Transact(s);
      if r.Ok? {
        Succeeded(now);
      }
    }

    method Succeeded(now: int)
      requires manifest.Some?
      modifies this`status
      ensures Honest() && status == Status(Some(true), now, Some(now), None) && State() == old(State())
    {
      status := Status(Some(true), now, Some(now), None);
    }

    /** The mirror reports a success exactly when it holds a snapshot. */
    predicate Honest()
      reads this
    {
      && (status.lastSuccess.Some? <==> manifest.Some?)
      && (status.ok == Some(true) ==> manifest.Some?)
    }

    /** Records a failed attempt, if the destination can be reached: what the mirror holds and
        the last success it reports stay, and it no longer claims that the last attempt worked. */
    method Failed(code: Code, now: int, reachable: bool)
      requires Honest()
      modifies this`status
      ensures Honest() && status.lastSuccess == old(status).lastSuccess
      ensures reachable ==> status.ok == Some(false) && status.code == Some(code) && status.lastAttempt == now
      ensures !reachable ==> status == old(status)
    {
      if reachable {
        status := status.(ok := Some(false), lastAttempt := now, code := Some(code));
      }
    }

    /** One scheduled run: the snapshot captured just now is mirrored, or nothing advances. A
        reported success means the mirror now reads as that snapshot; after a reported failure
        it reads as before. */
    method Run(captured: Result<Snapshot, Code>, now: int, reachable: bool) returns (r: Result<Report, Code>)
      requires Honest()
      modifies this
      ensures Honest()
      ensures r.Ok? ==> captured.Ok? && Reported(captured.value, r) && Stores(hash, State(), Canonical(hash, captured.value))
      ensures r.Ok? ==> status.ok == Some(true) && status.lastSuccess == Some(now)
      ensures State() == match captured case Err(_) => old(State()) case Ok(s) => CloudNext(hash, source, old(State()), s)
      ensures r.Err? ==> status.lastSuccess == old(status).lastSuccess
      ensures r.Err? && reachable ==> status.ok == Some(false)
    {
      match captured {
        case Err(code) => r := Err(code);
        case Ok(s) =>
          r := Update(s, now);
          if r.Ok? { HoldingStores(hash, s); }
      }
      if r.Err? {
        Failed(r.error, now, reachable);
      }
    }
  }
}
