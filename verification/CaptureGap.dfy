/** Sound tables whose capture is refused: a posting whose evidence names a payment of a
    booking that no member made and no stay of the posting leads to. */
module CaptureGap {
  import opened Wrappers
  import opened TreeNumbers
  import opened Ordering
  import opened Schema
  import opened Capture
  import opened Snapshots
  import opened Captures
  import opened TreeCheck
  import Ledger

  const HOST := Key(USER, 1)
  const STRANGER := Key(USER, 2)
  const FIRST := Key(MEMBER, 1)
  const LINK := Key(REFERRAL, 1)
  const POSTING := Key(LEDGER, 1)
  const REQUEST := Key(INTENT, 9)
  const CHARGE := Key(PAYMENT, 7)

  const TOP := TextRow(None, 1, Pad(1), 0, 1)

  /** The first posting, on the one member, with evidence of the payment. */
  predicate FirstPosting(e: Ledger.Entry, number: string, item: Ledger.Evidence)
  {
    && e.sequence == 1 && e.member == 1 && e.kind.Earn? && e.credit == 100 && e.debit == 0
    && e.programAfter == 100 && e.memberAfter == 100 && e.original.None? && e.counterpart.None?
    && e.customer == 1 && e.membership == "M" && e.number == number && e.evidence == {item}
  }

  function Posted(number: string, item: Ledger.Evidence): (e: Ledger.Entry)
    ensures FirstPosting(e, number, item)
  {
    Ledger.Entry(1, "o", "e", 1, "c", "g", 1, Ledger.Earn, 100, 0, 100, 100, None, None, 1, "M", number, {item})
  }

  function CapturedKeys(): set<Key> { {HOST, FIRST, LINK, POSTING} }

  function AllKeys(): set<Key> { CapturedKeys() + {STRANGER, REQUEST, CHARGE} }

  function BodyOf(k: Key, e: Ledger.Entry): Body
  {
    if k.table == MEMBER then MemberRow(Identity(1, "M", 0))
    else if k.table == REFERRAL then ReferralRow(1, TOP)
    else if k.table == LEDGER then LedgerRow(e)
    else OtherRow
  }

  /** The booking request belongs to the stranger, and the payment to the request. */
  function OthersOf(k: Key): set<Key>
  {
    if k.table == INTENT then {STRANGER} else if k.table == PAYMENT then {REQUEST} else {}
  }

  predicate AreTables(whole: Rows, e: Ledger.Entry)
  {
    whole.Keys == AllKeys() && forall k | k in whole :: whole[k] == Record(k, BodyOf(k, e), OthersOf(k), "")
  }

  function FieldsOf(k: Key): Row
  {
    if k.table == MEMBER then map["customer" := HOST]
    else if k.table == REFERRAL then map["member" := FIRST]
    else if k.table == LEDGER then map["member" := FIRST, "customer" := HOST]
    else if k.table == INTENT then map["customer" := STRANGER]
    else if k.table == PAYMENT then map["booking_intent" := REQUEST]
    else map[]
  }

  predicate IsDatabase(db: Db) { db.Keys == AllKeys() && forall k | k in db :: db[k] == FieldsOf(k) }

  // ----- The tables are sound -----

  lemma FieldsAreRefs(k: Key, e: Ledger.Entry)
    requires k in AllKeys() && e.member == 1 && e.customer == 1 && e.counterpart.None? && e.original.None?
    ensures (set f | f in FieldsOf(k) :: FieldsOf(k)[f]) == Refs(Record(k, BodyOf(k, e), OthersOf(k), ""))
  {
    var fields := FieldsOf(k);
    if k.table == MEMBER || k.table == INTENT { assert "customer" in fields; }
    if k.table == REFERRAL || k.table == LEDGER { assert "member" in fields; }
    if k.table == LEDGER { assert "customer" in fields; }
    if k.table == PAYMENT { assert "booking_intent" in fields; }
  }

  lemma KeysOfTables(whole: Rows, e: Ledger.Entry)
    requires AreTables(whole, e)
    ensures Members(whole) == {1} && ReferralKeys(whole) == {LINK} && LedgerKeys(whole) == {POSTING}
    ensures RevisionKeys(whole) == {} && EventKeys(whole) == {}
  {
    assert FIRST in whole;
  }

  lemma FieldsMatch(db: Db, whole: Rows, e: Ledger.Entry, k: Key)
    requires IsDatabase(db) && AreTables(whole, e) && k in whole
    requires e.member == 1 && e.customer == 1 && e.counterpart.None? && e.original.None?
    ensures (set f | f in db[k] :: db[k][f]) == Refs(whole[k])
  {
    FieldsAreRefs(k, e);
    assert db[k] == FieldsOf(k) && whole[k] == Record(k, BodyOf(k, e), OthersOf(k), "");
  }

  lemma RowsReflect(db: Db, whole: Rows)
    requires db.Keys == whole.Keys && RevisionKeys(whole) == {}
    requires forall k | k in whole :: (set f | f in db[k] :: db[k][f]) == Refs(whole[k])
    ensures Reflects(db, whole)
  {
  }

  lemma TablesReflect(db: Db, whole: Rows, e: Ledger.Entry)
    requires IsDatabase(db) && AreTables(whole, e)
    requires e.member == 1 && e.customer == 1 && e.counterpart.None? && e.original.None?
    ensures Reflects(db, whole)
  {
    KeysOfTables(whole, e);
    forall k | k in whole ensures (set f | f in db[k] :: db[k][f]) == Refs(whole[k]) {
      FieldsMatch(db, whole, e, k);
    }
    RowsReflect(db, whole);
  }

  lemma TablesAreTyped(whole: Rows, e: Ledger.Entry)
    requires AreTables(whole, e)
    ensures WellTyped(whole)
  {
  }

  lemma TablesAreComplete(whole: Rows, e: Ledger.Entry)
    requires AreTables(whole, e)
    requires e.member == 1 && e.customer == 1 && e.counterpart.None? && e.original.None?
    ensures Complete(whole)
  {
  }

  lemma TablesRelate(whole: Rows, e: Ledger.Entry)
    requires AreTables(whole, e)
    requires e.member == 1 && e.customer == 1 && e.counterpart.None? && e.original.None?
    ensures Related(whole)
  {
    TablesAreTyped(whole, e);
    TablesAreComplete(whole, e);
    KeysOfTables(whole, e);
    assert Linked(whole) == {1} by { assert whole[LINK].body.member == 1; }
  }

  lemma TreeIsProper(whole: Rows, e: Ledger.Entry)
    requires AreTables(whole, e)
    ensures OneReferralEach(whole) && TreeFits(whole)
  {
    KeysOfTables(whole, e);
    assert Linked(whole) == {1} by { assert whole[LINK].body.member == 1; }
    OriginalsAre(whole);
    assert Originals(whole) == map[1 := TOP] by { assert whole[LINK].body.link == TOP; }
    assert Revisions(whole) == [];
    OneRowIsChecked(Originals(whole));
  }

  lemma OneRowIsChecked(originals: TextLinks)
    requires originals == map[1 := TOP]
    ensures TextChecked(originals, [])
  {
    assert TextGraph(originals, []) == originals;
    forall x, r | (x, r) in TextRecorded(originals, []) ensures x == 1 && r == TOP {}
  }

  lemma OnePosting(whole: Rows, e: Ledger.Entry)
    requires AreTables(whole, e)
    ensures LedgerOf(whole) == [e]
  {
    KeysOfTables(whole, e);
    LedgerIs(whole);
    assert |LedgerOf(whole)| == 1;
    assert LedgerOf(whole)[0] in LedgerOf(whole);
  }

  lemma PeopleOfTables(whole: Rows, e: Ledger.Entry)
    requires AreTables(whole, e) && WellTyped(whole)
    ensures Knows(LedgerContext(whole), TOP.number, Ledger.Payment(Digits(CHARGE.pk)))
  {
    KeysOfTables(whole, e);
    assert LINK in whole && whole[LINK].body.link == TOP;
    assert TOP.number in Numbers(whole, 1);
    assert CHARGE in whole;
  }

  predicate Knows(c: Ledger.Context, number: string, item: Ledger.Evidence)
  {
    && 1 in c.members && c.members[1].customer == 1 && c.members[1].membership == "M"
    && number in c.members[1].numbers && item in c.evidence
  }

  lemma OneEntryReplays(e: Ledger.Entry, c: Ledger.Context, number: string, item: Ledger.Evidence)
    requires FirstPosting(e, number, item) && Knows(c, number, item)
    ensures Ledger.Replays([e], c)
  {
    assert [e][..1] == [e] && [e][..0] == [];
    assert Ledger.Program([e]) == Ledger.Program([]) + 100 && Ledger.Balance([e], 1) == Ledger.Balance([], 1) + 100;
    assert Ledger.EntryFits([e], 0, c);
    forall g ensures Ledger.TransfersOf([e], g) == [] {}
  }

  lemma TablesAreProper(whole: Rows, e: Ledger.Entry)
    requires AreTables(whole, e) && FirstPosting(e, TOP.number, Ledger.Payment(Digits(CHARGE.pk)))
    ensures Proper(whole)
  {
    TablesRelate(whole, e);
    TreeIsProper(whole, e);
    OnePosting(whole, e);
    PeopleOfTables(whole, e);
    OneEntryReplays(e, LedgerContext(whole), TOP.number, Ledger.Payment(Digits(CHARGE.pk)));
  }

  // ----- The payment is out of reach -----

  lemma SeedsOfDatabase(db: Db)
    requires IsDatabase(db)
    ensures Seeds(db) == {FIRST, LINK, POSTING}
  {
    assert WHOLE[0] == MEMBER && WHOLE[1] == REFERRAL && WHOLE[2] == LEDGER && WHOLE[3] == EVENT;
    assert RowsAmong(db, WHOLE) == {FIRST, LINK, POSTING};
    assert MemberUsers(db) == {HOST} by { assert FIRST in db && "customer" in db[FIRST]; }
    assert MemberIntents(db) == {};
  }

  lemma CapturedKeysAreClosed(db: Db)
    requires IsDatabase(db)
    ensures Closed(db, REVERSE, CapturedKeys())
  {
    forall j, k | 0 <= j < |REVERSE| && k in Referrers(db, CapturedKeys(), REVERSE[j]) ensures k in CapturedKeys() {
      assert REVERSE[j].table !in {INTENT, USER};
    }
  }

  lemma CapturedKeysAreCapture(db: Db)
    requires IsDatabase(db)
    ensures IsCapture(db, CapturedKeys())
  {
    SeedsOfDatabase(db);
    CapturedKeysAreClosed(db);
    forall whole | Closed(db, REVERSE, whole) && Seeds(db) <= whole ensures CapturedKeys() <= whole {
      assert FIRST in db && db[FIRST]["customer"] == HOST;
    }
  }

  lemma ChargeIsOutOfReach(db: Db, x: Key)
    requires x.table == PAYMENT && IsCapture(db, CapturedKeys()) && forall k, f | k in db && f in db[k] :: db[k][f] in db
    ensures !Reached(db, x)
  {
    CaptureIsReach(db, CapturedKeys(), x);
  }

  lemma ChargeIsMissing(db: Db, whole: Rows, e: Ledger.Entry, item: Ledger.Evidence)
    requires IsDatabase(db) && AreTables(whole, e) && Reflects(db, whole) && Complete(whole)
    requires item in e.evidence && item == Ledger.Payment(Digits(CHARGE.pk))
    requires IsCapture(db, CapturedKeys())
    ensures !EvidenceReached(db, whole)
  {
    RefersInside(db, whole);
    forall x | x in db && Names(x, item) ensures !Reached(db, x) {
      ChargeIsOutOfReach(db, x);
    }
    assert !NamesReached(db, item);
    assert whole[POSTING].body.entry == e && POSTING in LedgerKeys(whole);
  }

  /** These tables pass every check, and their capture does not. */
  lemma CaptureCanBeRefused() returns (db: Db, whole: Rows, chosen: set<Key>)
    ensures Reflects(db, whole) && Proper(whole) && IsCapture(db, chosen) && !Proper(Captured(whole, chosen))
  {
    var item := Ledger.Payment(Digits(CHARGE.pk));
    var e := Posted(TOP.number, item);
    db := map k | k in AllKeys() :: FieldsOf(k);
    whole := map k | k in AllKeys() :: Record(k, BodyOf(k, e), OthersOf(k), "");
    chosen := CapturedKeys();
    TablesReflect(db, whole, e);
    TablesAreProper(whole, e);
    CapturedKeysAreCapture(db);
    ChargeIsMissing(db, whole, e, item);
    CaptureIsProper(db, whole, chosen);
  }
}
