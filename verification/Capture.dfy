/** Choosing the rows of a snapshot: everything the loyalty tables need, following every
    foreign key and the approved reverse edges until nothing is missing. */
module Capture {
  import opened Wrappers
  import opened Schema

  const MAX_ROWS := 100_000

  /** A row's foreign keys by field; an empty key is not listed. */
  type Row = map<string, Key>

  type Db = map<Key, Row>

  /** Rows of `table` whose `field` points at a chosen row are chosen too. */
  datatype Edge = Edge(table: Table, field: string, target: Table)

  datatype CaptureError = RowLimit

  /** These tables are captured whole. */
  const WHOLE := [MEMBER, REFERRAL, LEDGER, EVENT]

  /** The approved reverse edges. */
  const REVERSE := [
    Edge(REVISION, "member", MEMBER),
    Edge(PROFILE, "user", USER),
    Edge(DRAFT, "quote", QUOTE),
    Edge(RESERVATION, "booking_intent", INTENT),
    Edge(MODIFICATION, "reservation", RESERVATION),
    Edge(STAY_OPERATION, "reservation", RESERVATION),
    Edge(CHANGE_OPERATION, "modification_request", MODIFICATION),
    Edge(REFUND, "reservation", RESERVATION),
    Edge(PAYMENT, "booking_intent", INTENT),
    Edge(PAYMENT_LINK, "reservation", RESERVATION),
    Edge(DELIVERY, "request", PAYMENT_LINK),
    Edge(RECEIPT, "reservation", RESERVATION),
    Edge(MANUAL_RECEIPT, "reservation", RESERVATION),
    Edge(FINANCE, "payment_attempt", PAYMENT)]

  function RowsOf(db: Db, table: Table): set<Key> { set k | k in db && k.table == table }

  /** The accounts of the members. */
  function MemberUsers(db: Db): set<Key>
  {
    set k | k in db && k.table == MEMBER && "customer" in db[k] :: db[k]["customer"]
  }

  /** The booking requests of those accounts. */
  function MemberIntents(db: Db): set<Key>
  {
    set k | k in db && k.table == INTENT && "customer" in db[k] && db[k]["customer"] in MemberUsers(db)
  }

  function RowsAmong(db: Db, tables: seq<Table>): set<Key> { set k | k in db && k.table in tables }

  function Seeds(db: Db): set<Key> { RowsAmong(db, WHOLE) + MemberIntents(db) }

  /** The rows some chosen rows of one table refer to. */
  function Targets(db: Db, chosen: set<Key>, table: Table): set<Key>
  {
    set k, f | k in db && k in chosen && k.table == table && f in db[k] :: db[k][f]
  }

  function Referrers(db: Db, chosen: set<Key>, e: Edge): set<Key>
  {
    set k | k in db && k.table == e.table && e.field in db[k] && db[k][e.field] in chosen && db[k][e.field].table == e.target
  }

  /** Nothing a chosen row refers to, and nothing an approved edge asks for, is missing. */
  ghost predicate Closed(db: Db, edges: seq<Edge>, chosen: set<Key>)
  {
    && (forall k, f | k in db && k in chosen && f in db[k] :: db[k][f] in chosen)
    && (forall j, k | 0 <= j < |edges| && k in Referrers(db, chosen, edges[j]) :: k in chosen)
  }

  /** Only keys that occur in the database can ever be chosen. */
  ghost function Universe(db: Db): set<Key>
  {
    db.Keys + set k, f | k in db && f in db[k] :: db[k][f]
  }

  ghost predicate LabelsKnown(db: Db, labels: seq<Table>)
  {
    forall k | k in db :: k.table in labels
  }

  lemma {:induction false} SubsetIsSmaller<T>(a: set<T>, b: set<T>)
    requires a <= b
    ensures |a| <= |b|
    ensures |a| == |b| ==> a == b
    decreases a
  {
    if a != {} {
      var x :| x in a;
      SubsetIsSmaller(a - {x}, b - {x});
    } else if |b| == 0 {
      assert b == {};
    }
  }

  /** Every closed set that holds `start` holds `chosen`. */
  ghost predicate Forced(db: Db, edges: seq<Edge>, start: set<Key>, chosen: set<Key>)
  {
    forall whole {:trigger Closed(db, edges, whole)} | Closed(db, edges, whole) && start <= whole :: chosen <= whole
  }

  /** Every closed set that holds `start` is over the row limit. */
  ghost predicate TooMany(db: Db, edges: seq<Edge>, start: set<Key>)
  {
    forall whole {:trigger Closed(db, edges, whole)} | Closed(db, edges, whole) && start <= whole :: |whole| > MAX_ROWS
  }

  lemma ForcedIsTooMany(db: Db, edges: seq<Edge>, start: set<Key>, chosen: set<Key>)
    requires Forced(db, edges, start, chosen) && |chosen| > MAX_ROWS
    ensures TooMany(db, edges, start)
  {
    forall whole | Closed(db, edges, whole) && start <= whole
      ensures |whole| > MAX_ROWS
    {
      SubsetIsSmaller(chosen, whole);
    }
  }

  lemma ForcedAgain(db: Db, edges: seq<Edge>, start: set<Key>, chosen: set<Key>, more: set<Key>)
    requires Forced(db, edges, start, chosen)
    ensures Forced(db, edges, chosen, more) ==> Forced(db, edges, start, more)
    ensures TooMany(db, edges, chosen) ==> TooMany(db, edges, start)
  {
  }

  lemma TargetsAreForced(db: Db, edges: seq<Edge>, start: set<Key>, chosen: set<Key>, table: Table)
    requires Forced(db, edges, start, chosen)
    ensures Forced(db, edges, start, chosen + Targets(db, chosen, table))
  {
  }

  lemma ReferrersAreForced(db: Db, edges: seq<Edge>, start: set<Key>, chosen: set<Key>, j: nat)
    requires Forced(db, edges, start, chosen) && j < |edges|
    ensures Forced(db, edges, start, chosen + Referrers(db, chosen, edges[j]))
  {
  }

  /** The seed tables, refusing once too many rows are chosen. */
  method Seed(db: Db) returns (r: Result<set<Key>, CaptureError>)
    ensures r.Ok? ==> r.value == Seeds(db) && |r.value| <= MAX_ROWS
    ensures r.Err? ==> |Seeds(db)| > MAX_ROWS
  {
    var chosen: set<Key> := {};
    var j := 0;
    while j < |WHOLE|
      invariant 0 <= j <= |WHOLE|
      invariant chosen == RowsAmong(db, WHOLE[..j])
      invariant |chosen| <= MAX_ROWS
    {
      RowsAmongGrow(db, WHOLE[..j], WHOLE[j]);
      assert WHOLE[..j] + [WHOLE[j]] == WHOLE[..j + 1];
      chosen := chosen + RowsOf(db, WHOLE[j]);
      if |chosen| > MAX_ROWS {
        RowsAmongFewer(db, WHOLE, j + 1);
        SubsetIsSmaller(chosen, Seeds(db));
        return Err(RowLimit);
      }
      j := j + 1;
    }
    assert WHOLE[..j] == WHOLE;
    chosen := chosen + MemberIntents(db);
    if |chosen| > MAX_ROWS { return Err(RowLimit); }
    return Ok(chosen);
  }

  lemma RowsAmongGrow(db: Db, tables: seq<Table>, table: Table)
    ensures RowsAmong(db, tables + [table]) == RowsAmong(db, tables) + RowsOf(db, table)
  {
  }

  lemma RowsAmongFewer(db: Db, tables: seq<Table>, n: nat)
    requires n <= |tables|
    ensures RowsAmong(db, tables[..n]) <= RowsAmong(db, tables)
  {
  }

  /** Everything the rows of `start` in these tables refer to is chosen. */
  ghost predicate Followed(db: Db, start: set<Key>, chosen: set<Key>, tables: seq<Table>)
  {
    forall k, f | k in db && k in start && k.table in tables && f in db[k] :: db[k][f] in chosen
  }

  lemma FollowedGrows(db: Db, start: set<Key>, chosen: set<Key>, tables: seq<Table>, table: Table)
    requires start <= chosen && Followed(db, start, chosen, tables)
    ensures Followed(db, start, chosen + Targets(db, chosen, table), tables + [table])
  {
  }

  /** Follows every foreign key of the chosen rows, table by table. */
  method FollowKeys(db: Db, labels: seq<Table>, ghost edges: seq<Edge>, start: set<Key>) returns (chosen: set<Key>)
    requires LabelsKnown(db, labels) && start <= Universe(db)
    ensures start <= chosen <= Universe(db)
    ensures Followed(db, start, chosen, labels) && Forced(db, edges, start, chosen)
  {
    chosen := start;
    var j := 0;
    while j < |labels|
      invariant 0 <= j <= |labels|
      invariant start <= chosen <= Universe(db)
      invariant Followed(db, start, chosen, labels[..j]) && Forced(db, edges, start, chosen)
    {
      TargetsAreForced(db, edges, start, chosen, labels[j]);
      FollowedGrows(db, start, chosen, labels[..j], labels[j]);
      assert labels[..j] + [labels[j]] == labels[..j + 1];
      chosen := chosen + Targets(db, chosen, labels[j]);
      j := j + 1;
    }
    assert labels[..j] == labels;
  }

  /** The first n edges ask for nothing that is not chosen. */
  ghost predicate Answered(db: Db, edges: seq<Edge>, n: nat, start: set<Key>, chosen: set<Key>)
    requires n <= |edges|
  {
    forall a | 0 <= a < n :: Referrers(db, start, edges[a]) <= chosen
  }

  lemma ReferrersGrow(db: Db, e: Edge, start: set<Key>, chosen: set<Key>)
    requires start <= chosen
    ensures Referrers(db, start, e) <= Referrers(db, chosen, e)
  {
  }

  /** One pass over all tables and all approved edges. */
  method Pass(db: Db, labels: seq<Table>, edges: seq<Edge>, start: set<Key>) returns (r: Result<set<Key>, CaptureError>)
    requires LabelsKnown(db, labels) && start <= Universe(db)
    ensures r.Ok? ==> start <= r.value <= Universe(db) && Forced(db, edges, start, r.value)
    ensures r.Ok? && edges != [] ==> |r.value| <= MAX_ROWS
    ensures r.Ok? && r.value == start ==> Closed(db, edges, start)
    ensures r.Err? ==> TooMany(db, edges, start)
  {
    var chosen := FollowKeys(db, labels, edges, start);
    ghost var followed := chosen;
    var j := 0;
    while j < |edges|
      invariant 0 <= j <= |edges|
      invariant start <= followed <= chosen <= Universe(db)
      invariant Answered(db, edges, j, start, chosen) && Forced(db, edges, start, chosen)
      invariant j > 0 ==> |chosen| <= MAX_ROWS
    {
      ReferrersAreForced(db, edges, start, chosen, j);
      ReferrersGrow(db, edges[j], start, chosen);
      chosen := chosen + Referrers(db, chosen, edges[j]);
      if |chosen| > MAX_ROWS {
        ForcedIsTooMany(db, edges, start, chosen);
        return Err(RowLimit);
      }
      j := j + 1;
    }
    if chosen == start {
      NothingNewIsClosed(db, labels, edges, start);
    }
    return Ok(chosen);
  }

  lemma NothingNewIsClosed(db: Db, labels: seq<Table>, edges: seq<Edge>, chosen: set<Key>)
    requires LabelsKnown(db, labels)
    requires Followed(db, chosen, chosen, labels) && Answered(db, edges, |edges|, chosen, chosen)
    ensures Closed(db, edges, chosen)
  {
  }

  /** The capture loop ends, and it returns exactly the least closed set that holds the
      seeds, or refuses exactly when that set is larger than the row limit. */
  method Choose(db: Db, labels: seq<Table>, edges: seq<Edge>) returns (r: Result<set<Key>, CaptureError>)
    requires LabelsKnown(db, labels) && edges != []
    ensures r.Ok? ==> Seeds(db) <= r.value && Closed(db, edges, r.value) && |r.value| <= MAX_ROWS
    ensures r.Ok? ==> Forced(db, edges, Seeds(db), r.value)
    ensures r.Err? ==> TooMany(db, edges, Seeds(db))
  {
    var seeded := Seed(db);
    if seeded.Err? {
      ForcedIsTooMany(db, edges, Seeds(db), Seeds(db));
      return Err(RowLimit);
    }
    SeedsInUniverse(db);
    r := Close(db, labels, edges, seeded.value);
  }

  lemma SeedsInUniverse(db: Db)
    ensures Seeds(db) <= Universe(db)
  {
  }

  /** Passes over everything until a pass chooses nothing new. */
  method Close(db: Db, labels: seq<Table>, edges: seq<Edge>, seeds: set<Key>) returns (r: Result<set<Key>, CaptureError>)
    requires LabelsKnown(db, labels) && edges != [] && seeds <= Universe(db)
    ensures r.Ok? ==> seeds <= r.value && Closed(db, edges, r.value) && |r.value| <= MAX_ROWS
    ensures r.Ok? ==> Forced(db, edges, seeds, r.value)
    ensures r.Err? ==> TooMany(db, edges, seeds)
  {
    var chosen := seeds;
    while true
      invariant seeds <= chosen <= Universe(db) && Forced(db, edges, seeds, chosen)
      decreases Universe(db) - chosen
    {
      var before := |chosen|;
      var passed := Pass(db, labels, edges, chosen);
      if passed.Err? {
        ForcedAgain(db, edges, seeds, chosen, chosen);
        return Err(RowLimit);
      }
      ForcedAgain(db, edges, seeds, chosen, passed.value);
      SubsetIsSmaller(chosen, passed.value);
      if before == |passed.value| { return Ok(chosen); }
      LessIsLeft(Universe(db), chosen, passed.value);
      chosen := passed.value;
    }
  }

  lemma LessIsLeft(all: set<Key>, a: set<Key>, b: set<Key>)
    requires a < b <= all
    ensures all - b < all - a
  {
  }

  /** The check for a missing related record. */
  ghost predicate NothingMissing(db: Db, chosen: set<Key>)
  {
    forall k, f | k in db && k in chosen && f in db[k] :: db[k][f] in db && db[k][f] in chosen
  }

  /** When the database itself has no dangling keys, a captured set passes the checker's
      search for missing related records, and every chosen key has a row to write out. */
  lemma CapturedSetIsComplete(db: Db, edges: seq<Edge>, chosen: set<Key>)
    requires forall k, f | k in db && f in db[k] :: db[k][f] in db
    requires Closed(db, edges, chosen)
    requires Forced(db, edges, Seeds(db), chosen)
    ensures NothingMissing(db, chosen) && chosen <= db.Keys
  {
    assert Closed(db, edges, db.Keys);
  }
}
