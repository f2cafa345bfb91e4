/** From the live tables to an accepted snapshot: what is captured passes every check the
    tables themselves pass, provided the records named in ledger evidence can be reached from
    what a capture starts with. */
module Captures {
  import opened Wrappers
  import opened TreeNumbers
  import opened Ordering
  import opened Schema
  import opened Capture
  import opened Referrals
  import opened TreeCheck
  import opened Snapshots
  import Ledger

  /** The foreign keys the capture follows are those of the typed rows; members name their
      account and revisions their member in the fields the capture asks for. */
  ghost predicate Reflects(db: Db, whole: Rows)
  {
    && db.Keys == whole.Keys
    && (forall k | k in whole :: (set f | f in db[k] :: db[k][f]) == Refs(whole[k]))
    && (forall k | k in RevisionKeys(whole) :: "member" in db[k] && db[k]["member"] == Key(MEMBER, whole[k].body.revision.member))
  }

  /** A capture: the least set that holds the seeds and is closed under foreign keys and the
      approved reverse edges. */
  ghost predicate IsCapture(db: Db, chosen: set<Key>)
  {
    Seeds(db) <= chosen && Closed(db, REVERSE, chosen) && Forced(db, REVERSE, Seeds(db), chosen)
  }

  /** The rows written out. */
  ghost function Captured(whole: Rows, chosen: set<Key>): Rows
  {
    map k | k in whole && k in chosen :: whole[k]
  }

  /** The captured rows keep these tables whole. */
  ghost predicate KeepsCore(whole: Rows, part: Rows)
  {
    && (forall k | k in part :: k in whole && part[k] == whole[k])
    && (forall k | k in whole && !whole[k].body.OtherRow? :: k in part)
  }

  lemma CoreIsCaptured(db: Db, whole: Rows, chosen: set<Key>)
    requires Reflects(db, whole) && WellTyped(whole) && Complete(whole) && IsCapture(db, chosen)
    ensures KeepsCore(whole, Captured(whole, chosen))
  {
    forall k | k in whole && !whole[k].body.OtherRow? ensures k in chosen {
      assert Typed(whole[k]) && whole[k].key == k;
      if whole[k].body.RevisionRow? {
        RevisionIsCaptured(db, whole, chosen, k);
      } else {
        WholeTablesAreSeeds(db, k);
      }
    }
  }

  lemma WholeTablesAreSeeds(db: Db, k: Key)
    requires k in db && k.table in {MEMBER, REFERRAL, LEDGER, EVENT}
    ensures k in Seeds(db)
  {
    assert WHOLE[0] == MEMBER && WHOLE[1] == REFERRAL && WHOLE[2] == LEDGER && WHOLE[3] == EVENT;
    assert k in RowsAmong(db, WHOLE);
  }

  /** A revision is reached from its member over the first approved edge. */
  lemma RevisionIsCaptured(db: Db, whole: Rows, chosen: set<Key>, k: Key)
    requires Reflects(db, whole) && WellTyped(whole) && Complete(whole) && IsCapture(db, chosen)
    requires k in whole && whole[k].body.RevisionRow?
    ensures k in chosen
  {
    var m := Key(MEMBER, whole[k].body.revision.member);
    assert m in Refs(whole[k]) && Refs(whole[k]) <= whole.Keys;
    WholeTablesAreSeeds(db, m);
    assert Typed(whole[k]) && whole[k].key == k && k in RevisionKeys(whole);
    assert REVERSE[0] == Edge(REVISION, "member", MEMBER);
    assert k in Referrers(db, chosen, REVERSE[0]);
  }

  // ----- The derived tables of the captured rows -----

  lemma SameKeys(whole: Rows, part: Rows)
    requires KeepsCore(whole, part)
    ensures Members(part) == Members(whole) && ReferralKeys(part) == ReferralKeys(whole)
    ensures RevisionKeys(part) == RevisionKeys(whole) && LedgerKeys(part) == LedgerKeys(whole) && EventKeys(part) == EventKeys(whole)
    ensures Linked(part) == Linked(whole)
  {
    SameMembers(whole, part);
    assert ReferralKeys(part) == ReferralKeys(whole);
    forall m ensures m in Linked(part) <==> m in Linked(whole) {
      if m in Linked(whole) {
        var k :| k in ReferralKeys(whole) && whole[k].body.member == m;
        assert k in ReferralKeys(part);
      }
    }
  }

  lemma SameMembers(whole: Rows, part: Rows)
    requires KeepsCore(whole, part)
    ensures Members(part) == Members(whole)
  {
    forall m ensures m in Members(part) <==> m in Members(whole) {
      if m in Members(whole) {
        var k :| k in whole && whole[k].body.MemberRow? && k.pk == m;
        assert k in part;
      }
    }
  }

  lemma SameLinks(a: TextLinks, b: TextLinks)
    requires a.Keys == b.Keys && forall m | m in a :: a[m] == b[m]
    ensures a == b
  {
  }

  lemma SameOriginal(whole: Rows, part: Rows, m: Member)
    requires KeepsCore(whole, part) && OneReferralEach(whole) && OneReferralEach(part) && m in Originals(whole)
    ensures m in Originals(part) && Originals(part)[m] == Originals(whole)[m]
  {
    OriginalsAre(whole);
    OriginalsAre(part);
    var k :| k in ReferralKeys(whole) && whole[k].body.member == m && Originals(whole)[m] == whole[k].body.link;
    assert k in ReferralKeys(part);
  }

  lemma SameOriginals(whole: Rows, part: Rows)
    requires KeepsCore(whole, part) && OneReferralEach(whole) && OneReferralEach(part)
    ensures Originals(part) == Originals(whole)
  {
    SameKeys(whole, part);
    var a, b := Originals(whole), Originals(part);
    assert a.Keys == Linked(whole) && b.Keys == Linked(part);
    forall m | m in a ensures m in b && b[m] == a[m] { SameOriginal(whole, part, m); }
    SameLinks(b, a);
  }

  lemma SameRevisions(whole: Rows, part: Rows)
    requires KeepsCore(whole, part)
    ensures Revisions(part) == Revisions(whole)
  {
    SameKeys(whole, part);
    var f := (k: Key) => k.pk;
    ByIsOrder(f);
    var ks := Sorted(RevisionKeys(whole), By(f));
    forall j | 0 <= j < |ks| ensures ks[j] in part && part[ks[j]] == whole[ks[j]] {
      assert ks[j] in ks;
    }
  }

  /** Orders that agree list a set the same way. */
  lemma SameSorting(xs: set<Key>, f: Key -> nat, g: Key -> nat)
    requires forall k :: f(k) == g(k)
    ensures IsOrder(By(f)) && IsOrder(By(g))
    ensures Sorted(xs, By(f)) == Sorted(xs, By(g))
  {
    ByIsOrder(f);
    ByIsOrder(g);
    var s, t := Sorted(xs, By(f)), Sorted(xs, By(g));
    forall j, k | 0 <= j < k < |s| ensures By(g)(s[j], s[k]) {
      assert By(f)(s[j], s[k]);
    }
    AscendingIsUnique(s, t, By(g));
  }

  lemma SameSequence(whole: Rows, part: Rows)
    requires KeepsCore(whole, part)
    ensures forall k :: Sequence(part)(k) == Sequence(whole)(k)
  {
  }

  lemma SameLedger(whole: Rows, part: Rows)
    requires KeepsCore(whole, part)
    ensures LedgerOf(part) == LedgerOf(whole)
  {
    SameKeys(whole, part);
    SameSequence(whole, part);
    SameSorting(LedgerKeys(whole), Sequence(part), Sequence(whole));
    var ks, ls := Sorted(LedgerKeys(whole), By(Sequence(whole))), Sorted(LedgerKeys(part), By(Sequence(part)));
    assert ks == ls;
    SameEntries(whole, part, ks);
  }

  lemma SameEntries(whole: Rows, part: Rows, ks: seq<Key>)
    requires KeepsCore(whole, part) && forall k | k in ks :: k in LedgerKeys(whole)
    ensures forall j | 0 <= j < |ks| :: ks[j] in whole && ks[j] in part && part[ks[j]] == whole[ks[j]]
  {
    forall j | 0 <= j < |ks| ensures ks[j] in LedgerKeys(whole) {
      assert ks[j] in ks;
    }
  }

  lemma SameNumbers(whole: Rows, part: Rows, m: Member)
    requires KeepsCore(whole, part)
    ensures Numbers(part, m) == Numbers(whole, m)
  {
    forall k | k in whole && (whole[k].body.ReferralRow? || whole[k].body.RevisionRow?) ensures k in part {}
  }

  lemma SamePeople(whole: Rows, part: Rows)
    requires KeepsCore(whole, part) && WellTyped(whole) && WellTyped(part)
    ensures LedgerContext(part).members == LedgerContext(whole).members
  {
    SameMembers(whole, part);
    forall m | m in Members(whole)
      ensures IdentityOf(part, m) == IdentityOf(whole, m) && Numbers(part, m) == Numbers(whole, m)
    {
      MemberHasKey(whole, m);
      MemberHasKey(part, m);
      SameNumbers(whole, part, m);
    }
  }

  // ----- What a capture reaches -----

  /** Choosing row a asks for row b: a refers to b, or b refers to a over an approved edge. */
  ghost predicate Leads(db: Db, a: Key, b: Key)
  {
    || (a in db && exists f | f in db[a] :: db[a][f] == b)
    || (exists j | 0 <= j < |REVERSE| :: ComesBack(db, REVERSE[j], a, b))
  }

  predicate ComesBack(db: Db, e: Edge, a: Key, b: Key)
  {
    b in db && b.table == e.table && e.field in db[b] && db[b][e.field] == a && a.table == e.target
  }

  /** A chain of such rows that starts in a table captured whole or at a member's request. */
  ghost predicate Path(db: Db, path: seq<Key>)
  {
    path != [] && path[0] in Seeds(db) && forall j {:trigger path[j]} | 0 < j < |path| :: Leads(db, path[j - 1], path[j])
  }

  ghost predicate Reached(db: Db, x: Key)
  {
    exists path :: Path(db, path) && path[|path| - 1] == x
  }

  lemma {:induction false} PathIsChosen(db: Db, chosen: set<Key>, path: seq<Key>)
    requires Seeds(db) <= chosen && Closed(db, REVERSE, chosen) && Path(db, path)
    ensures path[|path| - 1] in chosen
  {
    if |path| > 1 {
      var before := path[..|path| - 1];
      PathIsChosen(db, chosen, before);
      var a, b := before[|before| - 1], path[|path| - 1];
      assert Leads(db, a, b) by { assert path[|path| - 1] == b && path[|path| - 2] == a; }
      if j :| 0 <= j < |REVERSE| && ComesBack(db, REVERSE[j], a, b) {
        assert b in Referrers(db, chosen, REVERSE[j]);
      }
    }
  }

  lemma ReachesOn(db: Db, a: Key, b: Key)
    requires Reached(db, a) && Leads(db, a, b)
    ensures Reached(db, b)
  {
    var path :| Path(db, path) && path[|path| - 1] == a;
    var longer := path + [b];
    forall j | 0 < j < |longer| ensures Leads(db, longer[j - 1], longer[j]) {
      if j < |path| { assert longer[j] == path[j] && longer[j - 1] == path[j - 1]; }
    }
    assert Path(db, longer);
  }

  lemma RefersOn(db: Db, k: Key, f: string)
    requires Reached(db, k) && k in db && f in db[k]
    ensures Reached(db, db[k][f])
  {
    assert Leads(db, k, db[k][f]);
    ReachesOn(db, k, db[k][f]);
  }

  lemma ComesBackOn(db: Db, j: nat, a: Key, b: Key)
    requires Reached(db, a) && j < |REVERSE| && ComesBack(db, REVERSE[j], a, b)
    ensures Reached(db, b)
  {
    assert Leads(db, a, b);
    ReachesOn(db, a, b);
  }

  ghost function ReachedRows(db: Db): set<Key> { set x | x in Universe(db) && Reached(db, x) }

  lemma ReachedIsClosed(db: Db)
    ensures Closed(db, REVERSE, ReachedRows(db))
  {
    var all := ReachedRows(db);
    forall k, f | k in db && k in all && f in db[k] ensures db[k][f] in all {
      RefersOn(db, k, f);
    }
    forall j, k | 0 <= j < |REVERSE| && k in Referrers(db, all, REVERSE[j]) ensures k in all {
      ComesBackOn(db, j, db[k][REVERSE[j].field], k);
    }
  }

  lemma SeedsAreReached(db: Db)
    requires forall k, f | k in db && f in db[k] :: db[k][f] in db
    ensures Seeds(db) <= ReachedRows(db)
  {
    forall x | x in Seeds(db) ensures x in ReachedRows(db) {
      assert Path(db, [x]) && [x][|[x]| - 1] == x;
    }
  }

  /** A capture holds exactly the rows that can be reached from its seeds. */
  lemma CaptureIsReach(db: Db, chosen: set<Key>, x: Key)
    requires IsCapture(db, chosen) && forall k, f | k in db && f in db[k] :: db[k][f] in db
    ensures x in chosen <==> Reached(db, x)
  {
    if Reached(db, x) {
      var path :| Path(db, path) && path[|path| - 1] == x;
      PathIsChosen(db, chosen, path);
    }
    ReachedIsClosed(db);
    SeedsAreReached(db);
    assert chosen <= ReachedRows(db);
  }

  // ----- The captured rows pass the checks -----

  lemma PartIsTyped(whole: Rows, part: Rows)
    requires KeepsCore(whole, part) && WellTyped(whole)
    ensures WellTyped(part)
  {
  }

  lemma PartFits(whole: Rows, part: Rows)
    requires KeepsCore(whole, part) && WellTyped(whole) && WellTyped(part)
    ensures EventsFit(whole) ==> EventsFit(part)
    ensures OneReferralEach(whole) ==> OneReferralEach(part)
    ensures DistinctIdentities(whole) ==> DistinctIdentities(part)
  {
    SameKeys(whole, part);
    forall m | m in Members(whole) ensures IdentityOf(part, m) == IdentityOf(whole, m) {
      MemberHasKey(whole, m);
      MemberHasKey(part, m);
    }
    if EventsFit(whole) {
      PartEventsFit(whole, part);
    }
  }

  lemma PartEventsFit(whole: Rows, part: Rows)
    requires KeepsCore(whole, part) && WellTyped(whole) && WellTyped(part) && EventsFit(whole)
    ensures EventsFit(part)
  {
    SameKeys(whole, part);
    forall k | k in EventKeys(part) ensures EventFits(part, part[k].body.event) {
      assert EventFits(whole, whole[k].body.event);
      var e := part[k].body.event;
      if e.member.Some? {
        MemberHasKey(whole, e.member.value);
        MemberHasKey(part, e.member.value);
      }
    }
  }

  /** A replay only looks at the people and at whether the evidence is there. */
  lemma ReplaysElsewhere(entries: seq<Entry>, c: Ledger.Context, d: Ledger.Context)
    requires Ledger.Replays(entries, c) && c.members == d.members
    ensures Ledger.Replays(entries, d) <==> forall e | e in entries :: e.evidence <= d.evidence
  {
    if forall e | e in entries :: e.evidence <= d.evidence {
      forall k | 0 <= k < |entries| ensures Ledger.EntryFits(entries, k, d) {
        assert Ledger.EntryFits(entries, k, c) && entries[k] in entries;
      }
    }
    if Ledger.Replays(entries, d) {
      forall e | e in entries ensures e.evidence <= d.evidence {
        var k :| 0 <= k < |entries| && entries[k] == e;
        assert Ledger.EntryFits(entries, k, d);
      }
    }
  }

  /** Every record named in the evidence of a posting is captured. */
  ghost predicate EvidenceCaptured(part: Rows)
    requires WellTyped(part)
  {
    forall e | e in LedgerOf(part) :: e.evidence <= LedgerContext(part).evidence
  }

  /** Row x is the record that evidence names. */
  predicate Names(x: Key, e: Ledger.Evidence)
  {
    match e
    case Payment(id) => x.table == PAYMENT && Digits(x.pk) == id
    case Refund(id) => x.table == REFUND && Digits(x.pk) == id
    case Modification(id) => x.table == MODIFICATION && Digits(x.pk) == id
  }

  /** A reached row of the tables is the record that evidence names. */
  ghost predicate NamesReached(db: Db, e: Ledger.Evidence)
  {
    exists x :: x in db && Names(x, e) && Reached(db, x)
  }

  /** Every record named in ledger evidence can be reached from the rows a capture starts with. */
  ghost predicate EvidenceReached(db: Db, whole: Rows)
  {
    forall k, e | k in LedgerKeys(whole) && e in whole[k].body.entry.evidence :: NamesReached(db, e)
  }

  lemma EvidenceOfRows(part: Rows, e: Ledger.Evidence)
    requires WellTyped(part)
    ensures e in LedgerContext(part).evidence <==> exists x :: x in part && Names(x, e)
  {
    if e in LedgerContext(part).evidence {
      var x :| x in part && Names(x, e);
    }
  }

  lemma ItemIsCaptured(db: Db, whole: Rows, chosen: set<Key>, e: Ledger.Evidence)
    requires Reflects(db, whole) && Complete(whole) && IsCapture(db, chosen) && WellTyped(Captured(whole, chosen))
    ensures e in LedgerContext(Captured(whole, chosen)).evidence <==> NamesReached(db, e)
  {
    var part := Captured(whole, chosen);
    EvidenceOfRows(part, e);
    RefersInside(db, whole);
    if x :| x in part && Names(x, e) {
      CaptureIsReach(db, chosen, x);
    }
    if x :| x in db && Names(x, e) && Reached(db, x) {
      CaptureIsReach(db, chosen, x);
      assert x in part;
    }
  }

  lemma RefersInside(db: Db, whole: Rows)
    requires Reflects(db, whole) && Complete(whole)
    ensures forall k, f | k in db && f in db[k] :: db[k][f] in db
  {
    forall k, f | k in db && f in db[k] ensures db[k][f] in db {
      assert db[k][f] in Refs(whole[k]);
    }
  }

  /** The evidence named in these tables, all of it found or not. */
  lemma AllItems(whole: Rows, found: set<Ledger.Evidence>)
    ensures (forall e | e in LedgerOf(whole) :: e.evidence <= found)
      <==> forall k, x | k in LedgerKeys(whole) && x in whole[k].body.entry.evidence :: x in found
  {
    LedgerIs(whole);
    if forall e | e in LedgerOf(whole) :: e.evidence <= found {
      forall k, x | k in LedgerKeys(whole) && x in whole[k].body.entry.evidence ensures x in found {
        assert whole[k].body.entry in LedgerOf(whole);
      }
    }
    if forall k, x | k in LedgerKeys(whole) && x in whole[k].body.entry.evidence :: x in found {
      forall e | e in LedgerOf(whole) ensures e.evidence <= found {
        var k :| k in LedgerKeys(whole) && whole[k].body.entry == e;
      }
    }
  }

  lemma ItemsAgree(db: Db, whole: Rows, found: set<Ledger.Evidence>)
    requires forall e :: e in found <==> NamesReached(db, e)
    ensures EvidenceReached(db, whole) <==> forall k, x | k in LedgerKeys(whole) && x in whole[k].body.entry.evidence :: x in found
  {
  }

  lemma ItemsCaptured(db: Db, whole: Rows, chosen: set<Key>) returns (found: set<Ledger.Evidence>)
    requires Reflects(db, whole) && Complete(whole) && IsCapture(db, chosen) && WellTyped(Captured(whole, chosen))
    ensures found == LedgerContext(Captured(whole, chosen)).evidence
    ensures forall e :: e in found <==> NamesReached(db, e)
  {
    found := LedgerContext(Captured(whole, chosen)).evidence;
    forall e ensures e in found <==> NamesReached(db, e) {
      ItemIsCaptured(db, whole, chosen, e);
    }
  }

  lemma CapturedMeansReached(db: Db, whole: Rows, chosen: set<Key>)
    requires Reflects(db, whole) && Complete(whole) && IsCapture(db, chosen) && WellTyped(Captured(whole, chosen))
    requires KeepsCore(whole, Captured(whole, chosen))
    ensures EvidenceCaptured(Captured(whole, chosen)) <==> EvidenceReached(db, whole)
  {
    SameLedger(whole, Captured(whole, chosen));
    var found := ItemsCaptured(db, whole, chosen);
    AllItems(whole, found);
    ItemsAgree(db, whole, found);
  }

  lemma PartIsRelated(whole: Rows, part: Rows)
    requires KeepsCore(whole, part) && Related(whole) && Complete(part)
    ensures Related(part)
  {
    PartIsTyped(whole, part);
    PartFits(whole, part);
    SameKeys(whole, part);
  }

  lemma PartTreeFits(whole: Rows, part: Rows)
    requires KeepsCore(whole, part) && OneReferralEach(whole) && OneReferralEach(part) && TreeFits(whole)
    ensures TreeFits(part)
  {
    SameOriginals(whole, part);
    SameRevisions(whole, part);
  }

  lemma PartLedgerFits(whole: Rows, part: Rows)
    requires KeepsCore(whole, part) && WellTyped(whole) && WellTyped(part) && LedgerFits(whole)
    ensures LedgerFits(part) <==> EvidenceCaptured(part)
  {
    SameLedger(whole, part);
    SamePeople(whole, part);
    ReplaysElsewhere(LedgerOf(whole), LedgerContext(whole), LedgerContext(part));
  }

  /** Tables that pass every check give captured rows that pass every check, exactly when the
      records named in ledger evidence can be reached. */
  lemma CaptureIsProper(db: Db, whole: Rows, chosen: set<Key>)
    requires Reflects(db, whole) && Proper(whole) && IsCapture(db, chosen)
    ensures Proper(Captured(whole, chosen)) <==> EvidenceReached(db, whole)
  {
    var part := Captured(whole, chosen);
    CoreIsCaptured(db, whole, chosen);
    PartIsTyped(whole, part);
    CaptureIsComplete(db, whole, chosen);
    PartIsRelated(whole, part);
    PartTreeFits(whole, part);
    PartLedgerFits(whole, part);
    CapturedMeansReached(db, whole, chosen);
  }

  lemma CaptureIsComplete(db: Db, whole: Rows, chosen: set<Key>)
    requires Reflects(db, whole) && Complete(whole) && IsCapture(db, chosen)
    ensures Complete(Captured(whole, chosen)) && Captured(whole, chosen).Keys == chosen
  {
    RefersInside(db, whole);
    CapturedSetIsComplete(db, REVERSE, chosen);
    CapturedRowsAreComplete(db, REVERSE, chosen, Captured(whole, chosen));
  }

  /** Row x belongs to a stay: a payment of its booking request, or one of its refunds or
      modifications. */
  predicate OfStay(db: Db, stay: Key, x: Key)
  {
    && stay in db && x in db
    && (|| (x.table == PAYMENT && "booking_intent" in db[x] && "booking_intent" in db[stay]
            && db[x]["booking_intent"] == db[stay]["booking_intent"] && db[stay]["booking_intent"].table == INTENT)
        || (x.table in {REFUND, MODIFICATION} && "reservation" in db[x] && db[x]["reservation"] == stay))
  }

  /** The posting is on a stay, and the evidence names a record of that stay. */
  ghost predicate NamesOwnRecord(db: Db, posting: Key, e: Ledger.Evidence)
  {
    && posting in db && "reservation" in db[posting] && db[posting]["reservation"].table == RESERVATION
    && exists x :: Names(x, e) && OfStay(db, db[posting]["reservation"], x)
  }

  /** Evidence is written as the settlement of a stay writes it: it names only records of the
      posting's own stay. */
  ghost predicate EvidenceIsOwn(db: Db, whole: Rows)
  {
    forall k, e | k in LedgerKeys(whole) && e in whole[k].body.entry.evidence :: NamesOwnRecord(db, k, e)
  }

  lemma PaymentIsReached(db: Db, intent: Key, x: Key)
    requires Reached(db, intent) && ComesBack(db, Edge(PAYMENT, "booking_intent", INTENT), intent, x)
    ensures Reached(db, x)
  {
    assert REVERSE[8] == Edge(PAYMENT, "booking_intent", INTENT);
    ComesBackOn(db, 8, intent, x);
  }

  lemma RefundIsReached(db: Db, stay: Key, x: Key)
    requires Reached(db, stay) && ComesBack(db, Edge(REFUND, "reservation", RESERVATION), stay, x)
    ensures Reached(db, x)
  {
    assert REVERSE[7] == Edge(REFUND, "reservation", RESERVATION);
    ComesBackOn(db, 7, stay, x);
  }

  lemma ModificationIsReached(db: Db, stay: Key, x: Key)
    requires Reached(db, stay) && ComesBack(db, Edge(MODIFICATION, "reservation", RESERVATION), stay, x)
    ensures Reached(db, x)
  {
    assert REVERSE[4] == Edge(MODIFICATION, "reservation", RESERVATION);
    ComesBackOn(db, 4, stay, x);
  }

  /** The records of a posting's own stay can be reached from it. */
  lemma RecordsOfStayAreReached(db: Db, posting: Key, x: Key)
    requires posting in db && posting.table == LEDGER && "reservation" in db[posting] && db[posting]["reservation"].table == RESERVATION
    requires OfStay(db, db[posting]["reservation"], x)
    ensures Reached(db, x)
  {
    var stay := db[posting]["reservation"];
    SeedIsReached(db, posting);
    RefersOn(db, posting, "reservation");
    if x.table == PAYMENT {
      RefersOn(db, stay, "booking_intent");
      PaymentIsReached(db, db[stay]["booking_intent"], x);
    } else if x.table == REFUND {
      RefundIsReached(db, stay, x);
    } else {
      ModificationIsReached(db, stay, x);
    }
  }

  lemma SeedIsReached(db: Db, k: Key)
    requires k in db && k.table in {MEMBER, REFERRAL, LEDGER, EVENT}
    ensures Reached(db, k)
  {
    WholeTablesAreSeeds(db, k);
    assert Path(db, [k]) && [k][|[k]| - 1] == k;
  }

  /** So a capture of proper tables whose evidence stays with its own stay is proper. */
  lemma OwnEvidenceIsProper(db: Db, whole: Rows, chosen: set<Key>)
    requires Reflects(db, whole) && Proper(whole) && IsCapture(db, chosen) && EvidenceIsOwn(db, whole)
    ensures Proper(Captured(whole, chosen))
  {
    OwnEvidenceIsReached(db, whole);
    CaptureIsProper(db, whole, chosen);
  }

  lemma OwnEvidenceIsReached(db: Db, whole: Rows)
    requires Reflects(db, whole) && WellTyped(whole) && EvidenceIsOwn(db, whole)
    ensures EvidenceReached(db, whole)
  {
    forall k, e | k in LedgerKeys(whole) && e in whole[k].body.entry.evidence ensures NamesReached(db, e) {
      assert NamesOwnRecord(db, k, e) && Typed(whole[k]);
      var x :| Names(x, e) && OfStay(db, db[k]["reservation"], x);
      RecordsOfStayAreReached(db, k, x);
    }
  }

  /** The capture as a whole: it ends, and unless the row limit is truly exceeded it gives a
      sealed snapshot in capture order that is accepted exactly when all evidence is reached, which
      it is when every posting names only records of its own stay. */
  method TakeSnapshot(h: Hash, db: Db, labels: seq<Table>, whole: Rows, source: string, at: int) returns (r: Result<Snapshot, CaptureError>)
    requires LabelsKnown(db, labels) && Reflects(db, whole) && Proper(whole) && 3 <= |source| <= 100
    ensures r.Err? ==> TooMany(db, REVERSE, Seeds(db))
    ensures r.Ok? ==> IsSnapshotOf(h, db, whole, source, at, r.value)
    ensures r.Ok? ==> (Valid(h, r.value) <==> EvidenceReached(db, whole))
    ensures r.Ok? && EvidenceIsOwn(db, whole) ==> Valid(h, r.value)
  {
    if EvidenceIsOwn(db, whole) {
      OwnEvidenceIsReached(db, whole);
    }
    var chosen := Choose(db, labels, REVERSE);
    if chosen.Err? { return Err(chosen.error); }
    var rows := map k | k in whole && k in chosen.value :: whole[k];
    var records := Listed(rows);
    SealedCapture(h, db, whole, chosen.value, source, at);
    return Ok(Snapshot(source, at, records, h(source, at, records)));
  }

  ghost predicate IsSnapshotOf(h: Hash, db: Db, whole: Rows, source: string, at: int, s: Snapshot)
  {
    exists chosen :: IsCapture(db, chosen) && WritesOut(h, whole, chosen, source, at, s)
  }

  ghost predicate WritesOut(h: Hash, whole: Rows, chosen: set<Key>, source: string, at: int, s: Snapshot)
  {
    && s.source == source && s.capturedAt == at
    && DistinctKeys(s.records) && Indexed(s.records) == Captured(whole, chosen) && s == Canonical(h, s)
  }

  /** Rows listed in capture order and sealed are accepted exactly when they are proper. */
  lemma SealedIsValid(h: Hash, part: Rows, source: string, at: int)
    requires KeyedRows(part) && |part| <= MAX_ROWS && 3 <= |source| <= 100
    ensures var records := Listed(part);
      && DistinctKeys(records) && Indexed(records) == part
      && (Valid(h, Snapshot(source, at, records, h(source, at, records))) <==> Proper(part))
  {
    ListedIndexes(part);
    IndexIsUnique(part, Indexed(Listed(part)), Listed(part));
  }

  lemma SealedCapture(h: Hash, db: Db, whole: Rows, chosen: set<Key>, source: string, at: int)
    requires Reflects(db, whole) && Proper(whole) && IsCapture(db, chosen) && |chosen| <= MAX_ROWS && 3 <= |source| <= 100
    ensures var records := Listed(Captured(whole, chosen));
      && WritesOut(h, whole, chosen, source, at, Snapshot(source, at, records, h(source, at, records)))
      && (Valid(h, Snapshot(source, at, records, h(source, at, records))) <==> EvidenceReached(db, whole))
  {
    var part := Captured(whole, chosen);
    CaptureIsProper(db, whole, chosen);
    CaptureIsComplete(db, whole, chosen);
    assert |part| == |part.Keys|;
    SealedIsValid(h, part, source, at);
  }
}
