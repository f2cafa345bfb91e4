/** Recovering a guest's old bookings page by page. A job belongs to one user; a start
    opens a new generation, a worker leases the job, asks the provider for one page with
    no lock held, and commits the page only if its lease still stands. */
module BookingHistory {
  import opened Wrappers

  type User = nat
  type Uuid = nat
  type IntentId = nat
  type BookingId = nat
  type Time = int

  const MAX_PAGES := 1000
  const PAGE_SIZE := 100

  /** The verified contact pair of a user, with its keyed digest. */
  datatype Identity = Identity(email: string, phone: string, digest: string)

  datatype Status = Queued | Running | Complete | Partial

  datatype ErrorCode = NoError | IdentityChanged | SourceUnavailable | QueueUnavailable | PageLimit

  datatype Job = Job(
    generation: Uuid, digest: string, status: Status, cursor: Option<nat>, seen: seq<nat>,
    pages: nat, added: nat, conflicts: nat, skipped: nat,
    lease: Option<Uuid>, lockedUntil: Option<Time>, error: ErrorCode, requestedAt: Time, updatedAt: Time)
  {
    predicate Active() { status.Queued? || status.Running? }
  }

  /** A booking request made on the site, with its contact data in comparable form. */
  datatype Intent = Intent(customer: Option<User>, email: Option<string>, phone: Option<string>, reserved: bool)

  /** A recovered booking shown to its user. */
  datatype Seen = Seen(user: User, digest: string, generation: Uuid, visible: bool)

  datatype Tables = Tables(
    intents: map<IntentId, Intent>,
    reservations: map<BookingId, Option<IntentId>>,
    history: map<BookingId, Seen>)

  /** What happens when a matched provider row is stored. */
  datatype Fault = Fine | Malformed | Overflow | Unexpected

  datatype Row = Row(id: Option<int>, email: Option<string>, phone: Option<string>, fault: Fault)

  datatype Reply = Unreadable | Rows(rows: seq<Row>)

  predicate Matches(email: Option<string>, phone: Option<string>, identity: Identity)
  {
    email == Some(identity.email) && phone == Some(identity.phone)
  }

  // ----- Linking records to a user -----

  /** A record that names its owner: a site booking request or a recovered booking. */
  datatype Record = OfIntent(intent: IntentId) | OfHistory(booking: BookingId)

  ghost predicate Linked(t: Tables, r: Record)
  {
    match r
    case OfIntent(i) => i in t.intents && t.intents[i].customer.Some?
    case OfHistory(b) => b in t.history
  }

  ghost function OwnerOf(t: Tables, r: Record): User
    requires Linked(t, r)
  {
    match r
    case OfIntent(i) => t.intents[i].customer.value
    case OfHistory(b) => t.history[b].user
  }

  /** Owners are set once and never change. */
  ghost predicate OwnersKept(t: Tables, t': Tables)
  {
    forall r | Linked(t, r) :: Linked(t', r) && OwnerOf(t', r) == OwnerOf(t, r)
  }

  predicate Claimable(intent: Intent, identity: Identity)
  {
    intent.customer.None? && intent.reserved && Matches(intent.email, intent.phone, identity)
  }

  function ClaimableIds(intents: map<IntentId, Intent>, identity: Identity): set<IntentId>
  {
    set i | i in intents && Claimable(intents[i], identity)
  }

  function ClaimAll(intents: map<IntentId, Intent>, user: User, identity: Identity): map<IntentId, Intent>
  {
    map i | i in intents ::
      if Claimable(intents[i], identity) then intents[i].(customer := Some(user)) else intents[i]
  }

  /** Nobody has the reserved request, and it carries exactly this address and number. */
  predicate ClaimedBy(intent: Intent, identity: Identity)
  {
    intent.customer.None? && intent.reserved && intent.email == Some(identity.email) && intent.phone == Some(identity.phone)
  }

  lemma ClaimLinksExactly(t: Tables, user: User, identity: Identity)
    ensures var t' := t.(intents := ClaimAll(t.intents, user, identity));
      && OwnersKept(t, t')
      && (forall r :: Linked(t', r) <==> Linked(t, r) || (r.OfIntent? && r.intent in ClaimableIds(t.intents, identity)))
      && (forall i | i in t.intents :: t'.intents[i] == if ClaimedBy(t.intents[i], identity) then t.intents[i].(customer := Some(user)) else t.intents[i])
  {
  }

  /** What storing one page has done so far: the tables, the counters, the records newly
      linked and the recovered bookings written. */
  datatype Progress = Progress(
    tables: Tables, added: nat, conflicts: nat, skipped: nat, linked: set<Record>, stored: set<BookingId>)

  /** The site booking request behind a provider booking, if there is one. */
  function IntentOf(t: Tables, b: BookingId): Option<IntentId>
  {
    if b in t.reservations && t.reservations[b].Some? && t.reservations[b].value in t.intents
    then t.reservations[b] else None
  }

  /** The site booking request becomes the user's. */
  function WithIntent(p: Progress, user: User, i: IntentId): Progress
    requires i in p.tables.intents
  {
    var t := p.tables;
    p.(tables := t.(intents := t.intents[i := t.intents[i].(customer := Some(user))]),
       added := p.added + 1, linked := p.linked + {OfIntent(i)})
  }

  /** The provider booking is written as one of the user's recovered bookings. */
  function WithHistory(p: Progress, user: User, digest: string, g: Uuid, b: BookingId): Progress
  {
    var t := p.tables;
    p.(tables := t.(history := t.history[b := Seen(user, digest, g, true)]),
       added := if b in t.history then p.added else p.added + 1,
       linked := if b in t.history then p.linked else p.linked + {OfHistory(b)},
       stored := p.stored + {b})
  }

  function StoreMatch(p: Progress, user: User, identity: Identity, g: Uuid, b: BookingId): Progress
  {
    var t, i := p.tables, IntentOf(p.tables, b);
    if i.Some? && t.intents[i.value].customer.Some? then
      if t.intents[i.value].customer.value != user then p.(conflicts := p.conflicts + 1) else p
    else if i.Some? && Matches(t.intents[i.value].email, t.intents[i.value].phone, identity) then
      WithIntent(p, user, i.value)
    else if b in t.history && t.history[b].user != user then p.(conflicts := p.conflicts + 1)
    else WithHistory(p, user, identity.digest, g, b)
  }

  /** One row: rows of other people are ignored, a broken matched row counts as skipped. */
  function StoreRow(p: Progress, user: User, identity: Identity, g: Uuid, row: Row): Progress
    requires row.id.Some? && row.id.value > 0
  {
    if !Matches(row.email, row.phone, identity) then p
    else if row.fault.Fine? then StoreMatch(p, user, identity, g, row.id.value)
    else p.(skipped := p.skipped + 1)
  }

  predicate Usable(reply: Reply)
  {
    && reply.Rows? && |reply.rows| <= PAGE_SIZE
    && (forall j | 0 <= j < |reply.rows| :: reply.rows[j].id.Some? && reply.rows[j].id.value > 0)
    && (forall j, k | 0 <= j < k < |reply.rows| :: reply.rows[j].id != reply.rows[k].id)
  }

  /** A matched row fails in a way that undoes the whole page. */
  predicate Breaks(row: Row, identity: Identity)
  {
    Matches(row.email, row.phone, identity) && row.fault.Unexpected?
  }

  ghost function StoreAll(p: Progress, user: User, identity: Identity, g: Uuid, rows: seq<Row>): Progress
    requires forall j | 0 <= j < |rows| :: rows[j].id.Some? && rows[j].id.value > 0
  {
    if rows == [] then p
    else StoreRow(StoreAll(p, user, identity, g, rows[..|rows| - 1]), user, identity, g, rows[|rows| - 1])
  }

  /** The relation every stored row keeps between where a page started and where it is:
      owners stay, the counter is the number of records newly linked, and recovered
      bookings change only where they were stored. */
  ghost predicate Accounted(start: Progress, now: Progress, user: User, g: Uuid)
  {
    LinksAccounted(start, now, user) && RowsAccounted(start, now, user, g)
  }

  ghost predicate LinksAccounted(start: Progress, now: Progress, user: User)
  {
    && OwnersKept(start.tables, now.tables)
    && start.linked <= now.linked
    && now.added - start.added == |now.linked| - |start.linked|
    && (forall r :: Linked(now.tables, r) <==> Linked(start.tables, r) || r in now.linked)
    && (forall r | r in now.linked && r !in start.linked :: !Linked(start.tables, r) && OwnerOf(now.tables, r) == user)
  }

  ghost predicate RowsAccounted(start: Progress, now: Progress, user: User, g: Uuid)
  {
    && start.stored <= now.stored
    && now.tables.reservations == start.tables.reservations
    && (forall b | b in now.tables.history ::
          if b in now.stored then now.tables.history[b].user == user && now.tables.history[b].generation == g && now.tables.history[b].visible
          else b in start.tables.history && now.tables.history[b] == start.tables.history[b])
    && (forall b | b in now.stored :: b in now.tables.history)
  }

  lemma IntentAccounts(start: Progress, p: Progress, user: User, g: Uuid, i: IntentId)
    requires Accounted(start, p, user, g) && start.linked == {} && start.stored == {}
    requires i in p.tables.intents && p.tables.intents[i].customer.None?
    ensures Accounted(start, WithIntent(p, user, i), user, g)
  {
    var t, t' := p.tables, WithIntent(p, user, i).tables;
    assert !Linked(t, OfIntent(i));
    forall r
      ensures Linked(t', r) <==> Linked(t, r) || r == OfIntent(i)
      ensures Linked(t, r) ==> OwnerOf(t', r) == OwnerOf(t, r)
    {
    }
  }

  lemma HistoryAccounts(start: Progress, p: Progress, user: User, digest: string, g: Uuid, b: BookingId)
    requires Accounted(start, p, user, g) && start.linked == {} && start.stored == {}
    requires b in p.tables.history ==> p.tables.history[b].user == user
    ensures Accounted(start, WithHistory(p, user, digest, g, b), user, g)
  {
    HistoryLinks(start, p, user, digest, g, b);
  }

  lemma HistoryLinks(start: Progress, p: Progress, user: User, digest: string, g: Uuid, b: BookingId)
    requires LinksAccounted(start, p, user) && start.linked == {}
    requires b in p.tables.history ==> p.tables.history[b].user == user
    ensures LinksAccounted(start, WithHistory(p, user, digest, g, b), user)
  {
    var t, t' := p.tables, WithHistory(p, user, digest, g, b).tables;
    forall r
      ensures Linked(t', r) <==> Linked(t, r) || r == OfHistory(b)
      ensures Linked(t, r) ==> OwnerOf(t', r) == OwnerOf(t, r)
    {
    }
  }

  lemma StoreMatchAccounts(start: Progress, p: Progress, user: User, identity: Identity, g: Uuid, b: BookingId)
    requires Accounted(start, p, user, g) && start.linked == {} && start.stored == {}
    ensures Accounted(start, StoreMatch(p, user, identity, g, b), user, g)
  {
    var t, i := p.tables, IntentOf(p.tables, b);
    if i.Some? && t.intents[i.value].customer.None? && Matches(t.intents[i.value].email, t.intents[i.value].phone, identity) {
      IntentAccounts(start, p, user, g, i.value);
    } else if StoreMatch(p, user, identity, g, b) == WithHistory(p, user, identity.digest, g, b) && (b in t.history ==> t.history[b].user == user) {
      HistoryAccounts(start, p, user, identity.digest, g, b);
    }
  }

  lemma {:induction false} StoreAllAccounts(start: Progress, user: User, identity: Identity, g: Uuid, rows: seq<Row>)
    requires forall j | 0 <= j < |rows| :: rows[j].id.Some? && rows[j].id.value > 0
    requires start.linked == {} && start.stored == {}
    ensures Accounted(start, StoreAll(start, user, identity, g, rows), user, g)
  {
    if rows != [] {
      var before := rows[..|rows| - 1];
      StoreAllAccounts(start, user, identity, g, before);
      StoreMatchAccounts(start, StoreAll(start, user, identity, g, before), user, identity, g, rows[|rows| - 1].id.value);
    }
  }
}
