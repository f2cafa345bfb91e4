/** Sealed snapshots of the loyalty tables: what the checker accepts, and when one snapshot
    may follow another. */
module Snapshots {
  import opened Wrappers
  import opened Ordering
  import opened TreeNumbers
  import opened Schema
  import opened Capture
  import opened Referrals
  import opened TreeCheck
  import Forest
  import Ledger

  type Member = Forest.Member
  type Entry = Ledger.Entry

  datatype Identity = Identity(customer: User, number: string, joinedAt: int)

  datatype EventKind =
    | AccountCreated | Joined | InvitationReady | MembershipClosed | IdentityChange
    | PhoneVerified | EmailVerified | ReferralChanged | ProfileChanged

  datatype EventSource = Guest | Admin | System | History

  /** An audit row; a kind or source whose text is not one of the known ones reads as None. */
  datatype GuestEvent = GuestEvent(
    reference: string, kind: Option<EventKind>, source: Option<EventSource>,
    customer: User, member: Option<Member>, entry: Option<nat>)

  /** The typed part of a row; tables the checker does not interpret carry none. */
  datatype Body =
    | MemberRow(who: Identity)
    | ReferralRow(member: Member, link: TextRow)
    | LedgerRow(entry: Entry)
    | RevisionRow(revision: TextRevision)
    | EventRow(event: GuestEvent)
    | OtherRow

  /** A row: its key, typed fields, remaining foreign keys, and the text of everything else. */
  datatype Record = Record(key: Key, body: Body, others: set<Key>, rest: string)

  type Rows = map<Key, Record>

  /** The integrity seal over source, time and rows. */
  type Hash = (string, int, seq<Record>) -> int

  datatype Snapshot = Snapshot(source: string, capturedAt: int, records: seq<Record>, digest: int)

  datatype Code =
    | IntegrityFailed | SizeLimit | SourceRequired | DuplicateRecord | UnreviewedFields | MissingRelated
    | InvalidEvent | DuplicateRelation | IncompleteTree | DuplicateIdentity | InvalidTree
    | BadLedger(why: Ledger.LedgerError)
    | DifferentSource | StaleSnapshot | HistoryMissing | HistoryChanged | IdentityChanged
    | MissingManifest | BadRecordKey

  datatype Report = Report(program: int, balances: map<Member, int>, sequence: nat)

  // ----- Orders on keys -----

  predicate KeyBefore(a: Key, b: Key)
  {
    a.table < b.table || (a.table == b.table && TextBefore(Digits(a.pk), Digits(b.pk)))
  }

  lemma KeyOrder()
    ensures IsOrder(KeyBefore)
  {
    forall a, b: Key ensures (a == b ==> !KeyBefore(a, b)) && (a == b || KeyBefore(a, b) || KeyBefore(b, a)) {
      KeyTrichotomy(a, b);
    }
    forall a, b, c: Key | KeyBefore(a, b) && KeyBefore(b, c) ensures KeyBefore(a, c) {
      KeyTransitive(a, b, c);
    }
  }

  lemma KeyTrichotomy(a: Key, b: Key)
    ensures a == b ==> !KeyBefore(a, b)
    ensures a == b || KeyBefore(a, b) || KeyBefore(b, a)
  {
    TextTrichotomy(Digits(a.pk), Digits(b.pk));
    ValueOfDigits(a.pk);
    ValueOfDigits(b.pk);
  }

  lemma KeyTransitive(a: Key, b: Key, c: Key)
    requires KeyBefore(a, b) && KeyBefore(b, c)
    ensures KeyBefore(a, c)
  {
    if a.table == b.table == c.table {
      TextTransitive(Digits(a.pk), Digits(b.pk), Digits(c.pk));
    }
  }

  /** Ascending by a number, ties by key. */
  function By(f: Key -> nat): (Key, Key) -> bool
  {
    (a: Key, b: Key) => f(a) < f(b) || (f(a) == f(b) && KeyBefore(a, b))
  }

  lemma ByIsOrder(f: Key -> nat)
    ensures IsOrder(By(f))
  {
    KeyOrder();
    forall a, b: Key ensures (a == b ==> !By(f)(a, b)) && (a == b || By(f)(a, b) || By(f)(b, a)) {
      assert a == b || KeyBefore(a, b) || KeyBefore(b, a);
    }
    forall a, b, c: Key | By(f)(a, b) && By(f)(b, c) ensures By(f)(a, c) {
      if KeyBefore(a, b) && KeyBefore(b, c) { KeyTransitive(a, b, c); }
    }
  }

  // ----- Reading the tables out of a snapshot -----

  ghost predicate DistinctKeys(records: seq<Record>)
  {
    forall j, k | 0 <= j < k < |records| :: records[j].key != records[k].key
  }

  ghost function Keys(records: seq<Record>): set<Key> { set j | 0 <= j < |records| :: records[j].key }

  /** The rows by key. */
  ghost predicate Indexes(db: Rows, records: seq<Record>)
  {
    db.Keys == Keys(records) && forall j | 0 <= j < |records| :: db[records[j].key] == records[j]
  }

  ghost function Indexed(records: seq<Record>): (db: Rows)
    requires DistinctKeys(records)
    ensures Indexes(db, records)
  {
    map k | k in Keys(records) :: (var j :| 0 <= j < |records| && records[j].key == k; records[j])
  }

  lemma IndexIsUnique(db: Rows, other: Rows, records: seq<Record>)
    requires Indexes(db, records) && Indexes(other, records)
    ensures db == other
  {
  }

  /** The rows in capture order. */
  function Listed(db: Rows): (records: seq<Record>)
    ensures |records| == |db|
  {
    KeyOrder();
    var ks := Sorted(db.Keys, KeyBefore);
    seq(|ks|, j requires 0 <= j < |ks| => assert ks[j] in ks; db[ks[j]])
  }

  function Refs(r: Record): set<Key>
  {
    r.others +
    match r.body
    case MemberRow(who) => {Key(USER, who.customer)}
    case ReferralRow(m, link) => {Key(MEMBER, m)} + LinkRefs(link)
    case LedgerRow(e) =>
      {Key(MEMBER, e.member), Key(USER, e.customer)} +
      (if e.counterpart.Some? then {Key(MEMBER, e.counterpart.value)} else {}) +
      (if e.original.Some? then {Key(LEDGER, e.original.value)} else {})
    case RevisionRow(r) =>
      {Key(MEMBER, r.member), Key(MEMBER, r.linked), Key(USER, r.request.operator)} + LinkRefs(r.link)
    case EventRow(e) =>
      {Key(USER, e.customer)} +
      (if e.member.Some? then {Key(MEMBER, e.member.value)} else {}) +
      (if e.entry.Some? then {Key(LEDGER, e.entry.value)} else {})
    case OtherRow => {}
  }

  function LinkRefs(link: TextRow): set<Key>
  {
    {Key(MEMBER, link.root)} + if link.inviter.Some? then {Key(MEMBER, link.inviter.value)} else {}
  }

  /** The row has the fields of its table. */
  predicate Typed(r: Record)
  {
    match r.body
    case MemberRow(_) => r.key.table == MEMBER
    case ReferralRow(_, _) => r.key.table == REFERRAL
    case LedgerRow(_) => r.key.table == LEDGER
    case RevisionRow(_) => r.key.table == REVISION
    case EventRow(_) => r.key.table == EVENT
    case OtherRow => r.key.table < TABLES && r.key.table !in {MEMBER, REFERRAL, LEDGER, REVISION, EVENT}
  }

  predicate KeyedRows(db: Rows) { forall k | k in db :: db[k].key == k }

  predicate WellTyped(db: Rows) { KeyedRows(db) && forall k | k in db :: Typed(db[k]) }

  predicate Complete(db: Rows) { forall k {:trigger Refs(db[k])} | k in db :: Refs(db[k]) <= db.Keys }

  function Members(db: Rows): set<Member> { set k | k in db && db[k].body.MemberRow? :: k.pk }

  function ReferralKeys(db: Rows): set<Key> { set k | k in db && db[k].body.ReferralRow? }

  predicate OneReferralEach(db: Rows)
  {
    forall j, k | j in ReferralKeys(db) && k in ReferralKeys(db) && db[j].body.member == db[k].body.member :: j == k
  }

  function Originals(db: Rows): TextLinks
    requires OneReferralEach(db)
  {
    map m | m in Linked(db) :: (var k :| k in ReferralKeys(db) && db[k].body.member == m; db[k].body.link)
  }

  /** The members that have an original link. */
  function Linked(db: Rows): set<Member> { set k | k in ReferralKeys(db) :: db[k].body.member }

  function RevisionKeys(db: Rows): set<Key> { set k | k in db && db[k].body.RevisionRow? }

  /** The tree revisions, oldest first. */
  function Revisions(db: Rows): (revisions: seq<TextRevision>)
    ensures |revisions| == |RevisionKeys(db)|
  {
    ByIsOrder((k: Key) => k.pk);
    var ks := Sorted(RevisionKeys(db), By((k: Key) => k.pk));
    seq(|ks|, j requires 0 <= j < |ks| => assert ks[j] in ks; db[ks[j]].body.revision)
  }

  function LedgerKeys(db: Rows): set<Key> { set k | k in db && db[k].body.LedgerRow? }

  function Sequence(db: Rows): Key -> nat
  {
    k => if k in db && db[k].body.LedgerRow? then db[k].body.entry.sequence else 0
  }

  /** The ledger by sequence number. */
  function LedgerOf(db: Rows): (entries: seq<Entry>)
    ensures |entries| == |LedgerKeys(db)|
  {
    ByIsOrder(Sequence(db));
    var ks := Sorted(LedgerKeys(db), By(Sequence(db)));
    seq(|ks|, j requires 0 <= j < |ks| => assert ks[j] in ks; db[ks[j]].body.entry)
  }

  /** Every tree number a member ever held, as printed. */
  function Numbers(db: Rows, m: Member): set<string>
  {
    (set k | k in db && db[k].body.ReferralRow? && db[k].body.member == m :: db[k].body.link.number) +
    (set k | k in db && db[k].body.RevisionRow? && db[k].body.revision.member == m :: db[k].body.revision.link.number)
  }

  function LedgerContext(db: Rows): Ledger.Context
    requires WellTyped(db)
  {
    Ledger.Context(
      map m | m in Members(db) :: var who := IdentityOf(db, m); Ledger.Person(who.customer, who.number, Numbers(db, m)),
      (set k | k in db && k.table == PAYMENT :: Ledger.Payment(Digits(k.pk))) +
      (set k | k in db && k.table == REFUND :: Ledger.Refund(Digits(k.pk))) +
      (set k | k in db && k.table == MODIFICATION :: Ledger.Modification(Digits(k.pk))))
  }

  function IdentityOf(db: Rows, m: Member): Identity
    requires WellTyped(db) && m in Members(db)
  {
    MemberHasKey(db, m);
    db[Key(MEMBER, m)].body.who
  }

  lemma MemberHasKey(db: Rows, m: Member)
    requires WellTyped(db)
    ensures m in Members(db) <==> Key(MEMBER, m) in db
    ensures m in Members(db) ==> db[Key(MEMBER, m)].body.MemberRow?
  {
  }

  // ----- What the checker accepts -----

  /** A guest event names a known kind and source, its member's own account, and a ledger
      row of that member. */
  predicate EventFits(db: Rows, e: GuestEvent)
    requires WellTyped(db)
  {
    && e.kind.Some? && e.source.Some?
    && (e.member.Some? ==> e.member.value in Members(db) && IdentityOf(db, e.member.value).customer == e.customer)
    && (e.entry.Some? && Key(LEDGER, e.entry.value) in LedgerKeys(db) ==>
          Some(db[Key(LEDGER, e.entry.value)].body.entry.member) == e.member)
  }

  function EventKeys(db: Rows): set<Key> { set k | k in db && db[k].body.EventRow? }

  predicate EventsFit(db: Rows)
    requires WellTyped(db)
  {
    && (forall k | k in EventKeys(db) :: EventFits(db, db[k].body.event))
    && (forall j, k | j in EventKeys(db) && k in EventKeys(db) && db[j].body.event.reference == db[k].body.event.reference :: j == k)
  }

  predicate DistinctIdentities(db: Rows)
    requires WellTyped(db)
  {
    forall m, n | m in Members(db) && n in Members(db) && m != n ::
      && IdentityOf(db, m).number != IdentityOf(db, n).number
      && IdentityOf(db, m).customer != IdentityOf(db, n).customer
  }

  /** The rows fit together apart from the tree and the ledger. */
  ghost predicate Related(db: Rows)
  {
    && WellTyped(db) && Complete(db) && EventsFit(db)
    && OneReferralEach(db) && Linked(db) == Members(db) && DistinctIdentities(db)
  }

  ghost predicate Proper(db: Rows)
  {
    Related(db) && TreeFits(db) && LedgerFits(db)
  }

  ghost predicate TreeFits(db: Rows)
    requires OneReferralEach(db)
  {
    TextChecked(Originals(db), Revisions(db))
  }

  ghost predicate LedgerFits(db: Rows)
    requires WellTyped(db)
  {
    Ledger.Replays(LedgerOf(db), LedgerContext(db))
  }

  ghost predicate Valid(h: Hash, s: Snapshot)
  {
    && s.digest == h(s.source, s.capturedAt, s.records)
    && |s.records| <= MAX_ROWS && 3 <= |s.source| <= 100
    && DistinctKeys(s.records) && Proper(Indexed(s.records))
  }

  lemma NoRows()
    ensures OneReferralEach(map[]) && Originals(map[]) == map[] && Revisions(map[]) == [] && LedgerOf(map[]) == []
  {
    var db: Rows := map[];
    assert RevisionKeys(db) == {} && LedgerKeys(db) == {} && ReferralKeys(db) == {};
  }

  lemma EmptyTreeFits()
    ensures TextChecked(map[], [])
  {
    assert TextRecorded(map[], []) == {} && TextGraph(map[], []) == map[];
  }

  lemma EmptyLedgerFits(c: Ledger.Context)
    ensures Ledger.Replays([], c)
  {
    assert forall g :: Ledger.TransfersOf([], g) == [];
  }

  lemma NoRowsAreRelated()
    ensures Related(map[])
  {
    var db: Rows := map[];
    assert ReferralKeys(db) == {} && Linked(db) == {} && Members(db) == {} && EventKeys(db) == {};
  }

  lemma NothingIndexed()
    ensures Indexed([]) == map[]
  {
    assert Keys([]) == {};
  }

  /** A programme without members can be captured. */
  lemma EmptyIsValid(h: Hash, source: string, at: int)
    requires 3 <= |source| <= 100
    ensures Valid(h, Snapshot(source, at, [], h(source, at, [])))
  {
    NothingIndexed();
    NoRows();
    NoRowsAreRelated();
    EmptyTreeFits();
    EmptyLedgerFits(LedgerContext(map[]));
  }

  // ----- The derived tables hold exactly the rows -----

  lemma OriginalsAre(db: Rows)
    requires OneReferralEach(db)
    ensures forall k | k in ReferralKeys(db) ::
      db[k].body.member in Originals(db) && Originals(db)[db[k].body.member] == db[k].body.link
    ensures forall m | m in Originals(db) ::
      exists k :: k in ReferralKeys(db) && db[k].body.member == m && Originals(db)[m] == db[k].body.link
  {
    forall k | k in ReferralKeys(db)
      ensures db[k].body.member in Originals(db) && Originals(db)[db[k].body.member] == db[k].body.link
    {
      assert db[k].body.member in Linked(db);
    }
  }

  lemma RevisionsAre(db: Rows)
    ensures forall k | k in RevisionKeys(db) :: db[k].body.revision in Revisions(db)
    ensures forall v | v in Revisions(db) :: exists k :: k in RevisionKeys(db) && db[k].body.revision == v
  {
    var f := (k: Key) => k.pk;
    ByIsOrder(f);
    var ks := Sorted(RevisionKeys(db), By(f));
    forall k | k in RevisionKeys(db) ensures db[k].body.revision in Revisions(db) {
      assert k in ks;
      var j :| 0 <= j < |ks| && ks[j] == k;
      assert Revisions(db)[j] == db[k].body.revision;
    }
    forall v | v in Revisions(db) ensures exists k :: k in RevisionKeys(db) && db[k].body.revision == v {
      var j :| 0 <= j < |ks| && Revisions(db)[j] == v;
      assert ks[j] in ks;
    }
  }

  lemma LedgerIs(db: Rows)
    ensures forall k | k in LedgerKeys(db) :: db[k].body.entry in LedgerOf(db)
    ensures forall e | e in LedgerOf(db) :: exists k :: k in LedgerKeys(db) && db[k].body.entry == e
  {
    ByIsOrder(Sequence(db));
    var ks := Sorted(LedgerKeys(db), By(Sequence(db)));
    forall k | k in LedgerKeys(db) ensures db[k].body.entry in LedgerOf(db) {
      assert k in ks;
      var j :| 0 <= j < |ks| && ks[j] == k;
      assert LedgerOf(db)[j] == db[k].body.entry;
    }
    forall e | e in LedgerOf(db) ensures exists k :: k in LedgerKeys(db) && db[k].body.entry == e {
      var j :| 0 <= j < |ks| && LedgerOf(db)[j] == e;
      assert ks[j] in ks;
    }
  }

  lemma MemberIsKnown(db: Rows, k: Key, m: Member)
    requires WellTyped(db) && Complete(db) && k in db && Key(MEMBER, m) in Refs(db[k])
    ensures m in Members(db)
  {
  }

  lemma LinkIsKnown(db: Rows, k: Key, link: TextRow)
    requires WellTyped(db) && Complete(db) && k in db && LinkRefs(link) <= Refs(db[k])
    ensures link.root in Members(db)
    ensures link.inviter.Some? ==> link.inviter.value in Members(db)
  {
  }

  lemma ReferralIsKnown(db: Rows, k: Key)
    requires WellTyped(db) && Complete(db) && k in ReferralKeys(db)
    ensures KnownLink(Members(db), db[k].body.link)
  {
    LinkIsKnown(db, k, db[k].body.link);
  }

  lemma RevisionIsKnown(db: Rows, k: Key)
    requires WellTyped(db) && Complete(db) && k in RevisionKeys(db)
    ensures db[k].body.revision.member in Members(db)
    ensures KnownLink(Members(db), db[k].body.revision.link)
  {
    assert Typed(db[k]);
    MemberIsKnown(db, k, db[k].body.revision.member);
    LinkIsKnown(db, k, db[k].body.revision.link);
  }

  lemma EntryIsKnown(db: Rows, k: Key)
    requires WellTyped(db) && Complete(db) && k in LedgerKeys(db)
    ensures db[k].body.entry.member in Members(db)
  {
    MemberIsKnown(db, k, db[k].body.entry.member);
  }

  ghost predicate KnownLink(members: set<Member>, link: TextRow)
  {
    link.root in members && (link.inviter.Some? ==> link.inviter.value in members)
  }

  lemma OriginalsAreKnown(db: Rows)
    requires WellTyped(db) && Complete(db) && OneReferralEach(db)
    ensures forall m | m in Originals(db) :: KnownLink(Members(db), Originals(db)[m])
  {
    OriginalsAre(db);
    var originals, members := Originals(db), Members(db);
    forall m | m in originals ensures KnownLink(members, originals[m]) {
      var k :| k in ReferralKeys(db) && db[k].body.member == m && originals[m] == db[k].body.link;
      ReferralIsKnown(db, k);
    }
  }

  lemma RevisionsAreKnown(db: Rows)
    requires WellTyped(db) && Complete(db)
    ensures forall v | v in Revisions(db) :: v.member in Members(db) && KnownLink(Members(db), v.link)
  {
    RevisionsAre(db);
    var revisions, members := Revisions(db), Members(db);
    forall v | v in revisions ensures v.member in members && KnownLink(members, v.link) {
      var k :| k in RevisionKeys(db) && db[k].body.revision == v;
      RevisionIsKnown(db, k);
    }
  }

  /** Complete foreign keys give the tree check members to look up. */
  lemma TreeRowsRefer(db: Rows)
    requires WellTyped(db) && Complete(db) && OneReferralEach(db) && Linked(db) == Members(db)
    ensures TextReferences(Originals(db), Revisions(db))
  {
    OriginalsAreKnown(db);
    RevisionsAreKnown(db);
    var originals, revisions, members := Originals(db), Revisions(db), Members(db);
    assert originals.Keys == members;
    KnownRowsRefer(members, originals, revisions);
  }

  lemma KnownRowsRefer(members: set<Member>, originals: TextLinks, revisions: seq<TextRevision>)
    requires originals.Keys == members
    requires forall m | m in originals :: KnownLink(members, originals[m])
    requires forall v | v in revisions :: v.member in members && KnownLink(members, v.link)
    ensures TextReferences(originals, revisions)
  {
    assert forall j | 0 <= j < |revisions| :: revisions[j] in revisions;
  }

  /** Complete foreign keys give the replay members to look up. */
  lemma EntriesHaveMembers(db: Rows)
    requires WellTyped(db) && Complete(db)
    ensures forall e | e in LedgerOf(db) :: e.member in Members(db)
  {
    LedgerIs(db);
    forall k | k in LedgerKeys(db) ensures db[k].body.entry.member in Members(db) { EntryIsKnown(db, k); }
  }

  // ----- The checker -----

  /** The rows by key, unless a key occurs twice. */
  method Index(records: seq<Record>) returns (r: Result<Rows, Code>)
    ensures r.Ok? <==> DistinctKeys(records)
    ensures r.Ok? ==> Indexes(r.value, records)
  {
    var db: Rows := map[];
    var j := 0;
    while j < |records|
      invariant 0 <= j <= |records|
      invariant DistinctKeys(records[..j]) && Indexes(db, records[..j])
    {
      var row := records[j];
      assert records[..j + 1] == records[..j] + [row];
      if row.key in db {
        assert exists i :: 0 <= i < j && records[i].key == row.key;
        return Err(DuplicateRecord);
      }
      db := db[row.key := row];
      assert Indexes(db, records[..j + 1]) by {
        var upTo := records[..j + 1];
        assert upTo[j] == row;
        forall i | 0 <= i < j ensures upTo[i].key in db && db[upTo[i].key] == upTo[i] {
          assert upTo[i] == records[..j][i];
        }
        forall k | k in db ensures k in Keys(upTo) {
          if k != row.key {
            var i :| 0 <= i < j && records[..j][i].key == k;
            assert upTo[i].key == k;
          }
        }
      }
      j := j + 1;
    }
    assert records[..j] == records;
    return Ok(db);
  }

  method CheckEvents(db: Rows) returns (ok: bool)
    requires WellTyped(db)
    ensures ok <==> EventsFit(db)
  {
    var rest, references := EventKeys(db), {};
    while rest != {}
      invariant rest <= EventKeys(db)
      invariant references == set k | k in EventKeys(db) - rest :: db[k].body.event.reference
      invariant forall k | k in EventKeys(db) - rest :: EventFits(db, db[k].body.event)
      invariant forall j, k | j in EventKeys(db) - rest && k in EventKeys(db) - rest &&
                  db[j].body.event.reference == db[k].body.event.reference :: j == k
    {
      var k :| k in rest;
      var e := db[k].body.event;
      if e.reference in references || !EventFits(db, e) { return false; }
      assert EventKeys(db) - (rest - {k}) == (EventKeys(db) - rest) + {k};
      rest, references := rest - {k}, references + {e.reference};
    }
    assert EventKeys(db) - rest == EventKeys(db);
    return true;
  }

  method CheckRelations(db: Rows) returns (r: Result<(), Code>)
    ensures r.Ok? <==> Related(db)
  {
    if !WellTyped(db) { return Err(UnreviewedFields); }
    if !Complete(db) { return Err(MissingRelated); }
    var eventsFit := CheckEvents(db);
    if !eventsFit { return Err(InvalidEvent); }
    if !OneReferralEach(db) { return Err(DuplicateRelation); }
    if Linked(db) != Members(db) { return Err(IncompleteTree); }
    if !DistinctIdentities(db) { return Err(DuplicateIdentity); }
    return Ok(());
  }

  method Replay(members: set<Member>, entries: seq<Entry>, context: Ledger.Context) returns (r: Result<Report, Code>)
    requires context.members.Keys == members && forall e | e in entries :: e.member in members
    ensures r.Ok? <==> Ledger.Replays(entries, context)
    ensures r.Ok? ==> r.value == ReportOn(members, entries)
  {
    assert forall j | 0 <= j < |entries| :: entries[j] in entries;
    var totals := Ledger.Validate(entries, context);
    if totals.Err? { return Err(BadLedger(totals.error)); }
    var balances := map m | m in members :: Ledger.Held(totals.value.balances, m);
    r := Ok(Report(totals.value.program, balances, |entries|));
  }

  /** The totals of a ledger: its final balance, every member's, and its length. */
  function ReportOn(members: set<Member>, entries: seq<Entry>): Report
  {
    Report(Ledger.Program(entries), map m | m in members :: Ledger.Balance(entries, m), |entries|)
  }

  function ReportOf(db: Rows): Report { ReportOn(Members(db), LedgerOf(db)) }

  /** Everything about the rows themselves, in the checker's order. */
  method CheckRows(db: Rows) returns (r: Result<Report, Code>)
    ensures r.Ok? <==> Proper(db)
    ensures r.Ok? ==> r.value == ReportOf(db)
  {
    var related := CheckRelations(db);
    if related.Err? { return Err(related.error); }
    var treeFits := CheckTreeOf(db);
    if !treeFits { return Err(InvalidTree); }
    r := CheckLedger(db);
  }

  method CheckTreeOf(db: Rows) returns (ok: bool)
    requires Related(db)
    ensures ok <==> TreeFits(db)
  {
    TreeRowsRefer(db);
    ok := CheckTree(Originals(db), Revisions(db));
  }

  method CheckLedger(db: Rows) returns (r: Result<Report, Code>)
    requires WellTyped(db) && Complete(db)
    ensures r.Ok? <==> LedgerFits(db)
    ensures r.Ok? ==> r.value == ReportOf(db)
  {
    EntriesHaveMembers(db);
    r := Replay(Members(db), LedgerOf(db), LedgerContext(db));
  }

  method Validate(h: Hash, s: Snapshot) returns (r: Result<Report, Code>)
    ensures r.Ok? <==> Valid(h, s)
    ensures r.Ok? ==> r.value == ReportOf(Indexed(s.records))
  {
    if h(s.source, s.capturedAt, s.records) != s.digest { return Err(IntegrityFailed); }
    if |s.records| > MAX_ROWS { return Err(SizeLimit); }
    if !(3 <= |s.source| <= 100) { return Err(SourceRequired); }
    var indexed := Index(s.records);
    if indexed.Err? { return Err(indexed.error); }
    IndexIsUnique(indexed.value, Indexed(s.records), s.records);
    r := CheckRows(indexed.value);
  }

  // ----- When a snapshot may follow another -----

  /** Rows that may never change once captured. */
  predicate Frozen(table: Table) { table in {REFERRAL, LEDGER, REVISION, EVENT, RECEIPT} }

  predicate Keeps(old_: Record, new_: Record)
  {
    && (Frozen(old_.key.table) ==> new_ == old_)
    && (old_.body.MemberRow? ==> new_.body.MemberRow? && new_.body.who == old_.body.who)
  }

  /** Every row is still there, history is untouched, and members are who they were. */
  predicate RowsExtend(before: Rows, after: Rows)
  {
    forall k | k in before :: k in after && Keeps(before[k], after[k])
  }

  ghost predicate Extends(before: Snapshot, after: Snapshot)
    requires DistinctKeys(before.records) && DistinctKeys(after.records)
  {
    && before.source == after.source && before.capturedAt <= after.capturedAt
    && RowsExtend(Indexed(before.records), Indexed(after.records))
  }

  /** The check in front of every mirror write. */
  ghost predicate MayFollow(h: Hash, previous: Option<Snapshot>, incoming: Snapshot)
  {
    && Valid(h, incoming)
    && (previous.Some? ==> Valid(h, previous.value) && Extends(previous.value, incoming))
  }

  method Compare(h: Hash, previous: Option<Snapshot>, incoming: Snapshot) returns (r: Result<(), Code>)
    ensures r.Ok? <==> MayFollow(h, previous, incoming)
  {
    var validated := Validate(h, incoming);
    if validated.Err? { return Err(validated.error); }
    if previous.None? { return Ok(()); }
    var old_ := previous.value;
    validated := Validate(h, old_);
    if validated.Err? { return Err(validated.error); }
    if old_.source != incoming.source { return Err(DifferentSource); }
    if incoming.capturedAt < old_.capturedAt { return Err(StaleSnapshot); }
    var before := Index(old_.records);
    var after := Index(incoming.records);
    IndexIsUnique(before.value, Indexed(old_.records), old_.records);
    IndexIsUnique(after.value, Indexed(incoming.records), incoming.records);
    r := CompareRows(before.value, after.value);
  }

  method CompareRows(before: Rows, after: Rows) returns (r: Result<(), Code>)
    ensures r.Ok? <==> RowsExtend(before, after)
  {
    var rest := before.Keys;
    while rest != {}
      invariant rest <= before.Keys
      invariant forall k | k in before && k !in rest :: k in after && Keeps(before[k], after[k])
    {
      var k :| k in rest;
      var row := before[k];
      if k !in after { return Err(HistoryMissing); }
      if Frozen(row.key.table) && after[k] != row { return Err(HistoryChanged); }
      if row.body.MemberRow? && !(after[k].body.MemberRow? && after[k].body.who == row.body.who) { return Err(IdentityChanged); }
      rest := rest - {k};
    }
    return Ok(());
  }

  // ----- Laws of the order between snapshots -----

  lemma ExtendsSelf(s: Snapshot)
    requires DistinctKeys(s.records)
    ensures Extends(s, s)
  {
  }

  lemma ExtendsTransitive(h: Hash, a: Snapshot, b: Snapshot, c: Snapshot)
    requires Valid(h, a) && Valid(h, b) && Valid(h, c)
    requires Extends(a, b) && Extends(b, c)
    ensures Extends(a, c)
  {
    RowsExtendTransitive(Indexed(a.records), Indexed(b.records), Indexed(c.records));
  }

  lemma RowsExtendTransitive(a: Rows, b: Rows, c: Rows)
    requires WellTyped(a) && WellTyped(b) && RowsExtend(a, b) && RowsExtend(b, c)
    ensures RowsExtend(a, c)
  {
  }

  /** A posting that was in an earlier snapshot is in every later one. */
  lemma PostingsStay(a: Rows, b: Rows)
    requires WellTyped(a) && RowsExtend(a, b)
    ensures forall e | e in LedgerOf(a) :: e in LedgerOf(b)
  {
    LedgerIs(a);
    LedgerIs(b);
    forall e | e in LedgerOf(a) ensures e in LedgerOf(b) {
      var k :| k in LedgerKeys(a) && a[k].body.entry == e;
      assert Typed(a[k]) && Keeps(a[k], b[k]);
      assert k in LedgerKeys(b);
    }
  }

  /** Numbered histories of which one holds the other's postings: the smaller is a prefix. */
  lemma NumberedPrefix(before: seq<Entry>, after: seq<Entry>, c: Ledger.Context, d: Ledger.Context)
    requires Ledger.Replays(before, c) && Ledger.Replays(after, d)
    requires forall e | e in before :: e in after
    ensures before <= after
  {
    forall j | 0 <= j < |before|
      ensures j < |after| && after[j] == before[j]
    {
      assert Ledger.EntryFits(before, j, c) && before[j] in before;
      var i :| 0 <= i < |after| && after[i] == before[j];
      assert Ledger.EntryFits(after, i, d);
    }
    if before != [] {
      var last := |before| - 1;
      assert before[last] in before;
      assert last < |after|;
    }
  }

  lemma LedgerPrefix(a: Rows, b: Rows)
    requires WellTyped(a) && WellTyped(b) && RowsExtend(a, b) && LedgerFits(a) && LedgerFits(b)
    ensures LedgerOf(a) <= LedgerOf(b)
  {
    PostingsStay(a, b);
    NumberedPrefix(LedgerOf(a), LedgerOf(b), LedgerContext(a), LedgerContext(b));
  }

  lemma PrefixKeepsBalances(before: seq<Entry>, after: seq<Entry>)
    requires before <= after
    ensures forall n: nat | n <= |before| :: Ledger.Program(before[..n]) == Ledger.Program(after[..n])
    ensures forall n: nat, m | n <= |before| :: Ledger.Balance(before[..n], m) == Ledger.Balance(after[..n], m)
  {
    assert forall n: nat | n <= |before| :: before[..n] == after[..n];
  }

  /** The old ledger is a prefix of the new one, so all its running balances stand. */
  lemma OldLedgerIsPrefix(h: Hash, a: Snapshot, b: Snapshot)
    requires Valid(h, a) && Valid(h, b) && Extends(a, b)
    ensures var (old_, new_) := (LedgerOf(Indexed(a.records)), LedgerOf(Indexed(b.records)));
      && old_ <= new_
      && (forall n: nat | n <= |old_| :: Ledger.Program(old_[..n]) == Ledger.Program(new_[..n]))
      && (forall n: nat, m | n <= |old_| :: Ledger.Balance(old_[..n], m) == Ledger.Balance(new_[..n], m))
  {
    LedgerPrefix(Indexed(a.records), Indexed(b.records));
    PrefixKeepsBalances(LedgerOf(Indexed(a.records)), LedgerOf(Indexed(b.records)));
  }

  /** Every tree row ever captured is still recorded for the same member. */
  lemma TreeHistoryStays(h: Hash, a: Snapshot, b: Snapshot)
    requires Valid(h, a) && Valid(h, b) && Extends(a, b)
    ensures var (x, y) := (Indexed(a.records), Indexed(b.records));
      TextRecorded(Originals(x), Revisions(x)) <= TextRecorded(Originals(y), Revisions(y))
  {
    TreeRowsStay(Indexed(a.records), Indexed(b.records));
  }

  /** The tree of an accepted snapshot, whatever texts it was written with, is the printed form of
      tables that are a sound forest with distinct places. */
  lemma AcceptedTreeIsForest(h: Hash, s: Snapshot) returns (originals: Forest.Links, revisions: seq<Revision>)
    requires Valid(h, s)
    ensures var db := Indexed(s.records); Originals(db) == PrintLinks(originals) && Revisions(db) == PrintRevisions(revisions)
    ensures Checked(originals, revisions) && Forest.Sound(Graph(originals, revisions))
  {
    var db := Indexed(s.records);
    originals, revisions := CheckedTextIsPrinted(Originals(db), Revisions(db));
    CheckedIsSound(originals, revisions);
  }

  lemma TreeRowsStay(x: Rows, y: Rows)
    requires WellTyped(x) && RowsExtend(x, y) && OneReferralEach(x) && OneReferralEach(y)
    ensures TextRecorded(Originals(x), Revisions(x)) <= TextRecorded(Originals(y), Revisions(y))
  {
    OriginalsStay(x, y);
    RevisionsStay(x, y);
    RecordedGrows(Originals(x), Revisions(x), Originals(y), Revisions(y));
  }

  lemma RecordedGrows(a: TextLinks, r: seq<TextRevision>, b: TextLinks, q: seq<TextRevision>)
    requires forall m | m in a :: m in b && b[m] == a[m]
    requires forall v | v in r :: v in q
    ensures TextRecorded(a, r) <= TextRecorded(b, q)
  {
    forall row | row in TextWritten(r)
      ensures row in TextWritten(q)
    {
      var j :| 0 <= j < |r| && (r[j].member, r[j].link) == row;
      assert r[j] in r;
      var i :| 0 <= i < |q| && q[i] == r[j];
    }
  }

  lemma OriginalsStay(a: Rows, b: Rows)
    requires WellTyped(a) && RowsExtend(a, b) && OneReferralEach(a) && OneReferralEach(b)
    ensures forall m | m in Originals(a) :: m in Originals(b) && Originals(b)[m] == Originals(a)[m]
  {
  }

  lemma RevisionsStay(a: Rows, b: Rows)
    requires WellTyped(a) && RowsExtend(a, b)
    ensures forall v | v in Revisions(a) :: v in Revisions(b)
  {
    RevisionsAre(a);
    RevisionsAre(b);
    forall v | v in Revisions(a) ensures v in Revisions(b) {
      var k :| k in RevisionKeys(a) && a[k].body.revision == v;
      assert Typed(a[k]) && Keeps(a[k], b[k]);
      assert k in RevisionKeys(b);
    }
  }

  // ----- Capture order -----

  /** The snapshot with its rows in capture order, sealed again. */
  ghost function Canonical(h: Hash, s: Snapshot): Snapshot
    requires DistinctKeys(s.records)
  {
    var records := Listed(Indexed(s.records));
    Snapshot(s.source, s.capturedAt, records, h(s.source, s.capturedAt, records))
  }

  lemma ListedInOrder(db: Rows, ks: seq<Key>)
    requires KeyedRows(db) && IsOrder(KeyBefore) && ks == Sorted(db.Keys, KeyBefore)
    ensures |Listed(db)| == |ks| && forall j | 0 <= j < |ks| :: ks[j] in db && Listed(db)[j] == db[ks[j]] && Listed(db)[j].key == ks[j]
  {
    forall j | 0 <= j < |ks| ensures ks[j] in db {
      assert ks[j] in ks;
    }
  }

  lemma ListedDistinct(db: Rows, ks: seq<Key>)
    requires KeyedRows(db) && IsOrder(KeyBefore) && ks == Sorted(db.Keys, KeyBefore)
    ensures DistinctKeys(Listed(db))
  {
    ListedInOrder(db, ks);
    forall j, k | 0 <= j < k < |ks| ensures ks[j] != ks[k] {
      assert KeyBefore(ks[j], ks[k]);
      KeyTrichotomy(ks[j], ks[k]);
    }
  }

  lemma ListedHolds(db: Rows, ks: seq<Key>, k: Key)
    requires KeyedRows(db) && IsOrder(KeyBefore) && ks == Sorted(db.Keys, KeyBefore) && k in db
    ensures k in Keys(Listed(db))
  {
    ListedInOrder(db, ks);
    assert k in ks;
    var j :| 0 <= j < |ks| && ks[j] == k;
    assert Listed(db)[j].key == k;
  }

  lemma ListedKeys(db: Rows, ks: seq<Key>)
    requires KeyedRows(db) && IsOrder(KeyBefore) && ks == Sorted(db.Keys, KeyBefore)
    ensures Keys(Listed(db)) == db.Keys
  {
    ListedInOrder(db, ks);
    forall k | k in db ensures k in Keys(Listed(db)) {
      ListedHolds(db, ks, k);
    }
  }

  lemma ListedIndexes(db: Rows)
    requires KeyedRows(db)
    ensures DistinctKeys(Listed(db)) && Indexes(db, Listed(db))
  {
    KeyOrder();
    var ks := Sorted(db.Keys, KeyBefore);
    ListedInOrder(db, ks);
    ListedDistinct(db, ks);
    ListedKeys(db, ks);
  }

  lemma {:induction false} DistinctKeysCount(records: seq<Record>)
    requires DistinctKeys(records)
    ensures |Keys(records)| == |records|
  {
    if records != [] {
      var before, last := records[..|records| - 1], records[|records| - 1];
      DistinctKeysCount(before);
      assert last.key !in Keys(before);
      KeysGrow(before, last);
      assert before + [last] == records;
    }
  }

  lemma KeysGrow(records: seq<Record>, r: Record)
    ensures Keys(records + [r]) == Keys(records) + {r.key}
  {
    var all := records + [r];
    assert all[|records|] == r;
    forall j | 0 <= j < |records| ensures records[j].key in Keys(all) {
      assert all[j] == records[j];
    }
  }

  /** Putting an accepted snapshot in capture order and sealing it again keeps it accepted
      and keeps every row. */
  lemma CanonicalIsValid(h: Hash, s: Snapshot)
    requires Valid(h, s)
    ensures Valid(h, Canonical(h, s))
    ensures Indexed(Canonical(h, s).records) == Indexed(s.records)
    ensures Canonical(h, Canonical(h, s)) == Canonical(h, s)
  {
    ListingKeepsRows(s.records);
  }

  lemma ListingKeepsRows(records: seq<Record>)
    requires DistinctKeys(records)
    ensures var again := Listed(Indexed(records));
      DistinctKeys(again) && Indexed(again) == Indexed(records) && |again| == |records|
  {
    var db := Indexed(records);
    ListedIndexes(db);
    IndexIsUnique(db, Indexed(Listed(db)), Listed(db));
    DistinctKeysCount(records);
    assert |db.Keys| == |records|;
  }

  /** Writing out a captured set gives rows of which none refers to a missing one. */
  lemma CapturedRowsAreComplete(db: Db, edges: seq<Edge>, chosen: set<Key>, rows: Rows)
    requires forall k, f | k in db && f in db[k] :: db[k][f] in db
    requires Closed(db, edges, chosen)
    requires Forced(db, edges, Seeds(db), chosen)
    requires rows.Keys == chosen
    requires forall k | k in rows && k in db :: Refs(rows[k]) == set f | f in db[k] :: db[k][f]
    ensures Complete(rows)
  {
    CapturedSetIsComplete(db, edges, chosen);
  }
}
