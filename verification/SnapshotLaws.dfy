/** What captures, snapshots and mirrors demand, in the fields of the rows themselves. */
module SnapshotLaws {
  import opened Wrappers
  import opened Schema
  import opened Capture
  import opened TreeCheck
  import opened Snapshots
  import opened Captures
  import Ledger
  import Ordering
  import TreeNumbers

  // ----- What a capture starts with and follows -----

  /** The booking request was made by the account of a member. */
  ghost predicate OfMember(db: Db, k: Key)
    requires k in db
  {
    "customer" in db[k] && exists m :: m in db && m.table == MEMBER && "customer" in db[m] && db[m]["customer"] == db[k]["customer"]
  }

  /** A capture starts with every member, link, posting and guest event, and with the members' booking
      requests. */
  lemma SeedsExactly(db: Db, k: Key)
    ensures k in Seeds(db) <==>
      k in db && (k.table == MEMBER || k.table == REFERRAL || k.table == LEDGER || k.table == EVENT || (k.table == INTENT && OfMember(db, k)))
  {
    assert WHOLE[0] == MEMBER && WHOLE[1] == REFERRAL && WHOLE[2] == LEDGER && WHOLE[3] == EVENT;
    if k in db && k.table == INTENT && OfMember(db, k) {
      var m :| m in db && m.table == MEMBER && "customer" in db[m] && db[m]["customer"] == db[k]["customer"];
      assert db[m]["customer"] in MemberUsers(db);
    }
  }

  /** The rows of these tables are captured with the row their field names. */
  function CapturedWith(table: Table): Option<(string, Table)>
  {
    if table == REVISION then Some(("member", MEMBER))
    else if table == PROFILE then Some(("user", USER))
    else if table == DRAFT then Some(("quote", QUOTE))
    else if table == RESERVATION then Some(("booking_intent", INTENT))
    else if table == CHANGE_OPERATION then Some(("modification_request", MODIFICATION))
    else if table == PAYMENT then Some(("booking_intent", INTENT))
    else if table == DELIVERY then Some(("request", PAYMENT_LINK))
    else if table == FINANCE then Some(("payment_attempt", PAYMENT))
    else if table in {MODIFICATION, STAY_OPERATION, REFUND, PAYMENT_LINK, RECEIPT, MANUAL_RECEIPT} then Some(("reservation", RESERVATION))
    else None
  }

  /** Where the approved edges list a table. */
  function PlaceOf(table: Table): nat
  {
    if table == REVISION then 0 else if table == PROFILE then 1 else if table == DRAFT then 2 else if table == RESERVATION then 3
    else if table == MODIFICATION then 4 else if table == STAY_OPERATION then 5 else if table == CHANGE_OPERATION then 6
    else if table == REFUND then 7 else if table == PAYMENT then 8 else if table == PAYMENT_LINK then 9
    else if table == DELIVERY then 10 else if table == RECEIPT then 11 else if table == MANUAL_RECEIPT then 12 else 13
  }

  lemma EdgeOf(table: Table)
    requires CapturedWith(table).Some?
    ensures PlaceOf(table) < |REVERSE|
    ensures REVERSE[PlaceOf(table)] == Edge(table, CapturedWith(table).value.0, CapturedWith(table).value.1)
  {
  }

  /** A row of such a table is captured as soon as the row it belongs to is. */
  lemma RowsOfItAreCaptured(db: Db, chosen: set<Key>, k: Key)
    requires IsCapture(db, chosen) && k in db && CapturedWith(k.table).Some?
    requires var (field, target) := CapturedWith(k.table).value;
      field in db[k] && db[k][field] in chosen && db[k][field].table == target
    ensures k in chosen
  {
    EdgeOf(k.table);
    assert k in Referrers(db, chosen, REVERSE[PlaceOf(k.table)]);
  }

  /** There are no other such tables. */
  lemma EdgesAreThese(j: nat)
    requires j < |REVERSE|
    ensures CapturedWith(REVERSE[j].table) == Some((REVERSE[j].field, REVERSE[j].target))
  {
  }

  /** A row of such a table comes with the chosen row it belongs to. */
  predicate ComesWith(db: Db, k: Key, chosen: set<Key>)
  {
    k in db && CapturedWith(k.table).Some? &&
    var (field, target) := CapturedWith(k.table).value;
    field in db[k] && db[k][field] in chosen && db[k][field].table == target
  }

  /** Nothing else is captured: every row that a capture does not start with is named by another
      captured row, or comes with one. */
  lemma OnlyTheseAreCaptured(db: Db, chosen: set<Key>, k: Key)
    requires IsCapture(db, chosen) && k in chosen && k !in Seeds(db)
    ensures (exists a, f :: a in db && a in chosen - {k} && f in db[a] && db[a][f] == k) || ComesWith(db, k, chosen - {k})
  {
    var rest := chosen - {k};
    if !(exists a, f :: a in db && a in rest && f in db[a] && db[a][f] == k) && !ComesWith(db, k, rest) {
      forall j, x | 0 <= j < |REVERSE| && x in Referrers(db, rest, REVERSE[j]) ensures x in rest {
        EdgesAreThese(j);
        assert x in Referrers(db, chosen, REVERSE[j]);
      }
      assert Closed(db, REVERSE, rest);
    }
  }

  // ----- The order of a capture -----

  /** At this position the texts differ, or the first one has ended. */
  predicate FirstDifference(a: string, b: string, n: nat)
  {
    n <= |a| && n < |b| && a[..n] == b[..n] && (n == |a| || a[n] < b[n])
  }

  ghost predicate DiffersBelow(a: string, b: string) { exists n: nat :: FirstDifference(a, b, n) }

  lemma {:induction false} TextBeforeExactly(a: string, b: string)
    ensures Ordering.TextBefore(a, b) <==> DiffersBelow(a, b)
  {
    if a != "" && b != "" && a[0] == b[0] {
      TextBeforeExactly(a[1..], b[1..]);
      if n: nat :| FirstDifference(a[1..], b[1..], n) {
        assert a[..n + 1] == [a[0]] + a[1..][..n] && b[..n + 1] == [b[0]] + b[1..][..n];
        assert FirstDifference(a, b, n + 1);
      }
      if n: nat :| FirstDifference(a, b, n) {
        assert n > 0;
        assert a[1..][..n - 1] == a[..n][1..] && b[1..][..n - 1] == b[..n][1..];
        assert FirstDifference(a[1..], b[1..], n - 1);
      }
    } else if TextBeforeAtOnce(a, b) {
      assert FirstDifference(a, b, 0);
    }
  }

  predicate TextBeforeAtOnce(a: string, b: string) { b != "" && (a == "" || a[0] < b[0]) }

  /** Rows are listed by table, and within one by the text of the key, so 10 comes before 9. */
  lemma CaptureOrderExactly(a: Key, b: Key)
    ensures KeyBefore(a, b) <==>
      (a.table < b.table || (a.table == b.table && DiffersBelow(TreeNumbers.Digits(a.pk), TreeNumbers.Digits(b.pk))))
  {
    TextBeforeExactly(TreeNumbers.Digits(a.pk), TreeNumbers.Digits(b.pk));
  }

  // ----- What the checker accepts -----

  /** An audit row is of a known kind and source, its member is there and has the row's account, and a
      posting it names is that member's. */
  ghost predicate EventIsSound(db: Rows, e: GuestEvent)
  {
    && e.kind.Some? && e.source.Some?
    && (e.member.Some? ==> Key(MEMBER, e.member.value) in db && db[Key(MEMBER, e.member.value)].body.MemberRow?
                           && db[Key(MEMBER, e.member.value)].body.who.customer == e.customer)
    && (e.entry.Some? && Key(LEDGER, e.entry.value) in db && db[Key(LEDGER, e.entry.value)].body.LedgerRow? ==>
          e.member == Some(db[Key(LEDGER, e.entry.value)].body.entry.member))
  }

  lemma EventExactly(db: Rows, e: GuestEvent)
    requires WellTyped(db)
    ensures EventFits(db, e) <==> EventIsSound(db, e)
  {
    if e.member.Some? { MemberHasKey(db, e.member.value); }
  }

  /** Audit rows are sound and have references of their own. */
  ghost predicate EventsAreSound(db: Rows)
  {
    && (forall k | k in db && db[k].body.EventRow? :: EventIsSound(db, db[k].body.event))
    && (forall j, k | j in db && k in db && j != k && db[j].body.EventRow? && db[k].body.EventRow? ::
          db[j].body.event.reference != db[k].body.event.reference)
  }

  lemma EventsExactly(db: Rows)
    requires WellTyped(db)
    ensures EventsFit(db) <==> EventsAreSound(db)
  {
    forall k | k in EventKeys(db) ensures EventFits(db, db[k].body.event) <==> EventIsSound(db, db[k].body.event) {
      EventExactly(db, db[k].body.event);
    }
    if EventsAreSound(db) {
      forall k | k in EventKeys(db) ensures EventFits(db, db[k].body.event) {}
    }
    if EventsFit(db) {
      forall k | k in db && db[k].body.EventRow? ensures EventIsSound(db, db[k].body.event) {
        assert k in EventKeys(db);
      }
      forall j, k | j in db && k in db && j != k && db[j].body.EventRow? && db[k].body.EventRow?
        ensures db[j].body.event.reference != db[k].body.event.reference
      {
        assert j in EventKeys(db) && k in EventKeys(db);
      }
    }
  }

  /** Every member has an original link. */
  ghost predicate HasLink(db: Rows, m: Member) { exists k :: k in db && db[k].body.ReferralRow? && db[k].body.member == m }

  /** Members and original links correspond: each member has one and each one is a member's. */
  ghost predicate LinksCover(db: Rows)
  {
    && (forall k | k in db && db[k].body.MemberRow? :: HasLink(db, k.pk))
    && (forall k | k in db && db[k].body.ReferralRow? :: Key(MEMBER, db[k].body.member) in db && db[Key(MEMBER, db[k].body.member)].body.MemberRow?)
  }

  /** No two original links are one member's. */
  ghost predicate LinksDiffer(db: Rows)
  {
    forall j, k | j in db && k in db && j != k && db[j].body.ReferralRow? && db[k].body.ReferralRow? :: db[j].body.member != db[k].body.member
  }

  /** No two members share a membership number or an account. */
  ghost predicate MembersDiffer(db: Rows)
  {
    forall j, k | j in db && k in db && j != k && db[j].body.MemberRow? && db[k].body.MemberRow? ::
      db[j].body.who.number != db[k].body.who.number && db[j].body.who.customer != db[k].body.who.customer
  }

  lemma LinksDifferExactly(db: Rows)
    ensures OneReferralEach(db) <==> LinksDiffer(db)
  {
    forall k ensures k in ReferralKeys(db) <==> k in db && db[k].body.ReferralRow? {}
  }

  lemma LinksCoverExactly(db: Rows)
    requires WellTyped(db)
    ensures Linked(db) == Members(db) <==> LinksCover(db)
  {
    forall m ensures m in Linked(db) <==> HasLink(db, m) {
      if k :| k in db && db[k].body.ReferralRow? && db[k].body.member == m { assert k in ReferralKeys(db); }
    }
    forall m ensures m in Members(db) <==> Key(MEMBER, m) in db && db[Key(MEMBER, m)].body.MemberRow? { MemberHasKey(db, m); }
    if Linked(db) == Members(db) {
      forall k | k in db && db[k].body.MemberRow? ensures HasLink(db, k.pk) { assert k.pk in Members(db); }
      forall k | k in db && db[k].body.ReferralRow? ensures Key(MEMBER, db[k].body.member) in db && db[Key(MEMBER, db[k].body.member)].body.MemberRow? {
        assert k in ReferralKeys(db) && db[k].body.member in Linked(db);
      }
    }
  }

  lemma MembersDifferExactly(db: Rows)
    requires WellTyped(db)
    ensures DistinctIdentities(db) <==> MembersDiffer(db)
  {
    forall m ensures m in Members(db) <==> Key(MEMBER, m) in db { MemberHasKey(db, m); }
    forall k | k in db && db[k].body.MemberRow? ensures k == Key(MEMBER, k.pk) && k.pk in Members(db) { assert Typed(db[k]); }
    if DistinctIdentities(db) {
      forall j, k | j in db && k in db && j != k && db[j].body.MemberRow? && db[k].body.MemberRow?
        ensures db[j].body.who.number != db[k].body.who.number && db[j].body.who.customer != db[k].body.who.customer
      {
        assert IdentityOf(db, j.pk).number != IdentityOf(db, k.pk).number;
      }
    }
  }

  /** Sound postings numbered from one up, and paired transfers. */
  ghost predicate IsSoundLedger(entries: seq<Ledger.Entry>, c: Ledger.Context)
  {
    && (forall k: nat | k < |entries| :: Ledger.SoundPosting(entries, k, c))
    && (forall k: nat | k < |entries| && entries[k].kind == Ledger.Transfer :: Ledger.HasPartner(entries, k))
  }

  ghost predicate LedgerIsSound(db: Rows)
    requires WellTyped(db)
  {
    IsSoundLedger(LedgerOf(db), LedgerContext(db))
  }

  /** Every row is of its table, nothing a row refers to is missing, audit rows, links and members are
      sound, the tree passes the tree checks and the ledger is sound. */
  ghost predicate RowsAreSound(db: Rows)
  {
    && WellTyped(db) && Complete(db) && EventsAreSound(db) && LinksCover(db) && LinksDiffer(db) && MembersDiffer(db)
    && OneReferralEach(db) && TextChecked(Originals(db), Revisions(db)) && LedgerIsSound(db)
  }

  lemma ProperExactly(db: Rows)
    ensures Proper(db) <==> RowsAreSound(db)
  {
    if WellTyped(db) {
      EventsExactly(db);
      LinksDifferExactly(db);
      LinksCoverExactly(db);
      MembersDifferExactly(db);
      LedgerExactly(db);
    }
  }

  lemma SoundExactly(entries: seq<Ledger.Entry>, c: Ledger.Context)
    ensures Ledger.Replays(entries, c) <==> IsSoundLedger(entries, c)
  {
    Ledger.ReplaysExactly(entries, c);
  }

  lemma LedgerExactly(db: Rows)
    requires WellTyped(db)
    ensures LedgerFits(db) <==> LedgerIsSound(db)
  {
    SoundExactly(LedgerOf(db), LedgerContext(db));
  }

  /** Sound rows of different keys. */
  ghost predicate RecordsAreSound(records: seq<Record>)
  {
    (forall j, k | 0 <= j < k < |records| :: records[j].key != records[k].key) && RowsAreSound(Indexed(records))
  }

  lemma RecordsExactly(records: seq<Record>)
    ensures DistinctKeys(records) && Proper(Indexed(records)) <==> RecordsAreSound(records)
  {
    if DistinctKeys(records) {
      ProperExactly(Indexed(records));
    }
  }

  /** A snapshot is accepted exactly when its seal fits its source, time and rows, it has at most a
      hundred thousand rows of different keys from a source named in three to a hundred characters,
      and the rows are sound. */
  lemma ValidExactly(h: Hash, s: Snapshot)
    ensures Valid(h, s) <==>
      s.digest == h(s.source, s.capturedAt, s.records) && |s.records| <= 100_000 && 3 <= |s.source| <= 100 && RecordsAreSound(s.records)
  {
    RecordsExactly(s.records);
  }

  // ----- When a snapshot may follow another -----

  /** One snapshot may follow another exactly when it comes from the same source and no earlier, still
      has every row, leaves links, revisions, postings, audit rows and offline receipts as they were,
      and leaves every member the account, membership number and day of joining. */
  lemma ExtendsExactly(a: Snapshot, b: Snapshot)
    requires DistinctKeys(a.records) && DistinctKeys(b.records)
    ensures var (before, after) := (Indexed(a.records), Indexed(b.records));
      Extends(a, b) <==>
        && a.source == b.source && a.capturedAt <= b.capturedAt
        && (forall k | k in before :: k in after)
        && (forall k | k in before && before[k].key.table in {REFERRAL, REVISION, LEDGER, EVENT, RECEIPT} :: after[k] == before[k])
        && (forall k | k in before && before[k].body.MemberRow? ::
              after[k].body.MemberRow? && after[k].body.who.customer == before[k].body.who.customer
              && after[k].body.who.number == before[k].body.who.number && after[k].body.who.joinedAt == before[k].body.who.joinedAt)
  {
    var (before, after) := (Indexed(a.records), Indexed(b.records));
    if Extends(a, b) {
      forall k | k in before ensures k in after && Keeps(before[k], after[k]) {}
    }
  }
}
