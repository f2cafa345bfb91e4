/** Shared claims on inviting a guest: whoever consumes a claim may send once. */
module InvitationRegistry {
  import opened Wrappers

  type RowId = nat
  type Key = string
  type Customer = nat
  type Time = int

  const TTL := 300

  datatype State = Claimed | Unknown | Accepted | Delivered | Read | Failed | QueueFailed | Blocked

  datatype Origin = Website | N8n

  datatype Channel = Whatsapp | Email

  /** The event behind a claim: its sender and the sender's own reference. */
  datatype EventKey = EventKey(origin: Origin, reference: string)

  datatype Invitation = Invitation(
    key: Key, eventKey: EventKey, phone: string, email: string, phoneDigest: string, emailDigest: string,
    customer: Option<Customer>, language: string, origin: Origin, state: State, generation: nat,
    expiresAt: Time, dispatchedAt: Option<Time>, providerId: string, outcomes: seq<State>)

  type Rows = map<RowId, Invitation>

  /** The keyed digests of phone numbers and addresses; nothing is assumed of them. */
  datatype Hashes = Hashes(phone: string -> string, email: string -> string)
  {
    function Phone(value: string): string { if value == "" then "" else phone(value) }
    function Email(value: string): string { if value == "" then "" else email(value) }

    /** A keyed digest is never the empty text. */
    ghost predicate NeverEmpty() { forall v :: phone(v) != "" && email(v) != "" }
  }

  datatype Request = Request(
    key: Key, phone: string, email: string, customer: Option<Customer>, language: string,
    eventKey: EventKey, origin: Origin, channel: Channel)

  datatype Decision = Member | PhoneMissing | Duplicate | Eligible | Closed

  datatype Error =
    | EventConflict | PayloadConflict | TicketInvalid | TicketMismatch | PhoneChanged | BookingUnknown
    | ClaimExpired | InvalidStatus | ProviderIdRequired | ProviderIdConflict | PreflightRequired | NotFound

  // ----- Who is in the way -----

  predicate Retryable(row: Invitation, now: Time)
  {
    row.state.Blocked? || row.state.QueueFailed? || (row.state.Claimed? && row.expiresAt <= now)
  }

  /** The row concerns the same booking or the same person. */
  predicate Concerns(row: Invitation, h: Hashes, key: Key, phone: string, email: string, customer: Option<Customer>)
  {
    || row.key == key
    || (phone != "" && row.phoneDigest == h.phone(phone))
    || (email != "" && row.emailDigest == h.email(email))
    || (customer.Some? && row.customer == customer)
  }

  predicate Competing(rows: Rows, h: Hashes, key: Key, phone: string, email: string, customer: Option<Customer>,
                      exclude: Option<RowId>, now: Time)
  {
    exists i | i in rows ::
      Some(i) != exclude && Concerns(rows[i], h, key, phone, email, customer) && !Retryable(rows[i], now)
  }

  // ----- Claiming -----

  ghost predicate Unique(rows: Rows)
  {
    && (forall i, j | i in rows && j in rows && rows[i].key == rows[j].key :: i == j)
    && (forall i, j | i in rows && j in rows && rows[i].eventKey == rows[j].eventKey :: i == j)
  }

  ghost predicate HasKey(rows: Rows, key: Key, i: RowId) { i in rows && rows[i].key == key }

  ghost function ByKey(rows: Rows, key: Key): (r: Option<RowId>)
    ensures r.Some? ==> HasKey(rows, key, r.value)
    ensures r.None? ==> forall i | i in rows :: rows[i].key != key
  {
    if i :| HasKey(rows, key, i) then Some(i)
    else
      assert forall i | i in rows && rows[i].key == key :: HasKey(rows, key, i);
      None
  }

  function Filled(row: Invitation, h: Hashes, r: Request, now: Time): Invitation
  {
    row.(phone := r.phone, email := r.email, phoneDigest := h.Phone(r.phone), emailDigest := h.Email(r.email),
         customer := r.customer, language := r.language, eventKey := r.eventKey, origin := r.origin,
         state := Claimed, expiresAt := now + TTL)
  }

  function NewRow(h: Hashes, r: Request, now: Time): Invitation
  {
    Filled(Invitation(r.key, r.eventKey, "", "", "", "", None, "", r.origin, Claimed, 1, now, None, "", []), h, r, now)
  }

  datatype ClaimResult = Refused(error: Error) | Answer(decision: Decision, row: Option<RowId>, rows: Rows)

  /** One claim. `member` and `legacy` answer whether the guest already joined, and whether
      older receipts show an invitation in flight; `newId` names a row to create. */
  ghost function Claim(rows: Rows, h: Hashes, r: Request, now: Time, member: bool, legacy: bool, newId: RowId): ClaimResult
  {
    if exists i | i in rows :: rows[i].eventKey == r.eventKey && rows[i].key != r.key then Refused(EventConflict)
    else
      var old_ := ByKey(rows, r.key);
      if member then Answer(Member, old_, rows)
      else if r.phone == "" && r.channel.Whatsapp? then Answer(PhoneMissing, old_, rows)
      else if old_.Some? && !Retryable(rows[old_.value], now)
              && !(rows[old_.value].state.Claimed? && rows[old_.value].eventKey == r.eventKey) then Answer(Duplicate, old_, rows)
      else if Competing(rows, h, r.key, r.phone, r.email, r.customer, old_, now) then Answer(Duplicate, None, rows)
      else if legacy then Answer(Duplicate, old_, rows)
      else if old_.Some? && rows[old_.value].state.Claimed? && rows[old_.value].eventKey == r.eventKey
              && rows[old_.value].expiresAt > now then
        var row := rows[old_.value];
        if row.phone != r.phone || row.email != r.email || row.language != r.language then Refused(PayloadConflict)
        else Answer(Eligible, old_, rows)
      else if old_.Some? then
        var row := Filled(rows[old_.value], h, r, now);
        Answer(Eligible, old_, rows[old_.value := row.(generation := row.generation + 1)])
      else Answer(Eligible, Some(newId), rows[newId := NewRow(h, r, now)])
  }

  // ----- Consuming -----

  datatype Ticket = Ticket(id: RowId, phoneDigest: string, generation: nat, issuedAt: Time)

  function TicketFor(rows: Rows, i: RowId, now: Time): Ticket
    requires i in rows
  {
    Ticket(i, rows[i].phoneDigest, rows[i].generation, now)
  }

  datatype Proof = NoProof | BadSignature | Signed(ticket: Ticket)

  /** What the site knows when a claim is consumed. */
  datatype Facts = Facts(bookingUnknown: bool, member: bool, closed: bool, legacy: bool)

  function ProofError(rows: Rows, i: RowId, proof: Proof, now: Time): Option<Error>
    requires i in rows
  {
    match proof
    case NoProof => None
    case BadSignature => Some(TicketInvalid)
    case Signed(t) =>
      if now - t.issuedAt > TTL then Some(TicketInvalid)
      else if t.id != i || t.phoneDigest != rows[i].phoneDigest || t.generation != rows[i].generation then Some(TicketMismatch)
      else None
  }

  datatype ConsumeResult = ConsumeRefused(error: Error) | Consumed(decision: Decision, rows: Rows)

  /** The only way to a send permit: the row turns from claimed to unknown and is dispatched. */
  function Consume(rows: Rows, h: Hashes, i: RowId, phone: string, proof: Proof, now: Time, facts: Facts): ConsumeResult
    requires i in rows
  {
    var row := rows[i];
    var blocked := rows[i := row.(state := Blocked)];
    if ProofError(rows, i, proof, now).Some? then ConsumeRefused(ProofError(rows, i, proof, now).value)
    else if row.phone != phone then ConsumeRefused(PhoneChanged)
    else if facts.bookingUnknown then ConsumeRefused(BookingUnknown)
    else if facts.member then Consumed(Member, if row.state.Claimed? then blocked else rows)
    else if !row.state.Claimed? then Consumed(Duplicate, rows)
    else if row.origin.N8n? && facts.closed then Consumed(Closed, blocked)
    else if row.expiresAt <= now then ConsumeRefused(ClaimExpired)
    else if Competing(rows, h, row.key, row.phone, row.email, row.customer, Some(i), now) || facts.legacy then
      Consumed(Duplicate, blocked)
    else Consumed(Eligible, rows[i := row.(state := Unknown, dispatchedAt := Some(now))])
  }

  // ----- Recording outcomes -----

  function Rank(state: State): nat
  {
    match state
    case Accepted => 1
    case Delivered => 2
    case Read => 3
    case _ => 0
  }

  function RecordError(row: Invitation, state: State, providerId: string): Option<Error>
  {
    if state.Claimed? then Some(InvalidStatus)
    else if Rank(state) > 0 && row.origin.N8n? && providerId == "" then Some(ProviderIdRequired)
    else if row.providerId != "" && providerId != "" && row.providerId != providerId then Some(ProviderIdConflict)
    else if row.dispatchedAt.None? && !state.QueueFailed? && !state.Blocked? then Some(PreflightRequired)
    else None
  }

  function Recorded(row: Invitation, state: State, providerId: string): Invitation
  {
    row.(outcomes := if state in row.outcomes then row.outcomes else row.outcomes + [state],
         state := if Rank(state) >= Rank(row.state) then state else row.state,
         providerId := if row.providerId != "" then row.providerId else providerId)
  }

  // ----- Safety of the rows -----

  /** The row's message may be out; such a row must never be consumed again. */
  predicate Locked(row: Invitation)
  {
    !row.state.Claimed? && !row.state.QueueFailed? && !row.state.Blocked?
  }

  ghost predicate ShareSomething(a: Invitation, b: Invitation)
  {
    || a.key == b.key
    || (a.phoneDigest != "" && a.phoneDigest == b.phoneDigest)
    || (a.emailDigest != "" && a.emailDigest == b.emailDigest)
    || (a.customer.Some? && a.customer == b.customer)
  }

  /** Digests belong to the stored contacts; a row is locked exactly when it was dispatched;
      two dispatched rows have nothing in common. */
  ghost predicate Safe(rows: Rows, h: Hashes)
  {
    Unique(rows) && RowsFit(rows, h) && Apart(rows)
  }

  ghost predicate RowsFit(rows: Rows, h: Hashes)
  {
    && (forall i | i in rows ::
          rows[i].phoneDigest == h.Phone(rows[i].phone) && rows[i].emailDigest == h.Email(rows[i].email))
    && (forall i | i in rows :: Locked(rows[i]) <==> rows[i].dispatchedAt.Some?)
    && (forall i | i in rows :: rows[i].eventKey.origin == rows[i].origin)
  }

  ghost predicate Apart(rows: Rows)
  {
    forall i, j | i in rows && j in rows && i != j && rows[i].dispatchedAt.Some? && rows[j].dispatchedAt.Some? ::
      !ShareSomething(rows[i], rows[j])
  }

  /** Dispatched rows stay dispatched, with the same key, contacts and time. */
  ghost predicate DispatchesKept(rows: Rows, rows': Rows)
  {
    forall i | i in rows :: i in rows' && SameDispatch(rows[i], rows'[i])
  }

  lemma OneRowKeepsUnique(rows: Rows, i: RowId, row: Invitation)
    requires Unique(rows)
    requires forall j | j in rows && j != i :: rows[j].key != row.key && rows[j].eventKey != row.eventKey
    ensures Unique(rows[i := row])
  {
  }

  lemma OneRowKeepsFit(rows: Rows, h: Hashes, i: RowId, row: Invitation)
    requires RowsFit(rows, h)
    requires row.phoneDigest == h.Phone(row.phone) && row.emailDigest == h.Email(row.email)
    requires Locked(row) <==> row.dispatchedAt.Some?
    requires row.eventKey.origin == row.origin
    ensures RowsFit(rows[i := row], h)
  {
  }

  lemma OneRowKeepsApart(rows: Rows, i: RowId, row: Invitation)
    requires Apart(rows)
    requires row.dispatchedAt.Some? ==>
      forall j | j in rows && j != i && rows[j].dispatchedAt.Some? :: !ShareSomething(row, rows[j])
    ensures Apart(rows[i := row])
  {
  }

  /** Replacing or adding one row keeps the rows safe under these conditions on that row alone. */
  lemma OneRowKeepsSafe(rows: Rows, h: Hashes, i: RowId, row: Invitation)
    requires Safe(rows, h)
    requires forall j | j in rows && j != i :: rows[j].key != row.key && rows[j].eventKey != row.eventKey
    requires row.phoneDigest == h.Phone(row.phone) && row.emailDigest == h.Email(row.email)
    requires Locked(row) <==> row.dispatchedAt.Some?
    requires row.eventKey.origin == row.origin
    requires row.dispatchedAt.Some? ==>
      forall j | j in rows && j != i && rows[j].dispatchedAt.Some? :: !ShareSomething(row, rows[j])
    requires i in rows ==> SameDispatch(rows[i], row)
    ensures Safe(rows[i := row], h) && DispatchesKept(rows, rows[i := row])
  {
    OneRowKeepsUnique(rows, i, row);
    OneRowKeepsFit(rows, h, i, row);
    OneRowKeepsApart(rows, i, row);
  }

  /** A row that was dispatched still is, to the same booking and the same contacts. */
  ghost predicate SameDispatch(a: Invitation, b: Invitation)
  {
    a.dispatchedAt.Some? ==>
      && b.dispatchedAt == a.dispatchedAt && b.key == a.key && b.phoneDigest == a.phoneDigest
      && b.emailDigest == a.emailDigest && b.customer == a.customer
  }

  /** An eligible claim opens one row that was never dispatched and leaves all others alone. */
  ghost predicate ClaimOpened(rows: Rows, rows': Rows, h: Hashes, r: Request, i: RowId)
  {
    && i in rows' && rows' == rows[i := rows'[i]]
    && (i in rows ==> rows[i].dispatchedAt.None? && rows[i].key == r.key)
    && rows'[i].state == Claimed && rows'[i].dispatchedAt.None? && rows'[i].key == r.key
    && rows'[i].eventKey == r.eventKey && rows'[i].phone == r.phone && rows'[i].email == r.email
    && rows'[i].phoneDigest == h.Phone(r.phone) && rows'[i].emailDigest == h.Email(r.email)
    && rows'[i].origin == r.origin
  }

  lemma ClaimOpens(rows: Rows, h: Hashes, r: Request, now: Time, member: bool, legacy: bool, newId: RowId)
    requires Safe(rows, h) && newId !in rows && r.eventKey.origin == r.origin
    ensures match Claim(rows, h, r, now, member, legacy, newId)
      case Answer(decision, i, rows') =>
        if decision == Eligible then
          i.Some? && ClaimOpened(rows, rows', h, r, i.value) && (i == Some(newId) || i.value in rows)
        else rows' == rows
      case Refused(_) => true
  {
    var old_ := ByKey(rows, r.key);
    assert old_.Some? ==> Locked(rows[old_.value]) == rows[old_.value].dispatchedAt.Some?;
  }

  /** A claim keeps the rows safe. */
  lemma ClaimKeepsSafe(rows: Rows, h: Hashes, r: Request, now: Time, member: bool, legacy: bool, newId: RowId)
    requires Safe(rows, h) && newId !in rows && r.eventKey.origin == r.origin
    ensures match Claim(rows, h, r, now, member, legacy, newId)
      case Answer(_, _, rows') => Safe(rows', h) && DispatchesKept(rows, rows')
      case Refused(_) => true
  {
    var result := Claim(rows, h, r, now, member, legacy, newId);
    ClaimOpens(rows, h, r, now, member, legacy, newId);
    if result.Answer? && result.decision == Eligible {
      NoOtherRow(rows, h, r, now, member, legacy, newId);
      OneRowKeepsSafe(rows, h, result.row.value, result.rows[result.row.value]);
    }
  }

  lemma NoOtherRow(rows: Rows, h: Hashes, r: Request, now: Time, member: bool, legacy: bool, newId: RowId)
    requires Unique(rows) && newId !in rows
    ensures match Claim(rows, h, r, now, member, legacy, newId)
      case Answer(Eligible, Some(i), _) => forall j | j in rows && j != i :: rows[j].key != r.key && rows[j].eventKey != r.eventKey
      case _ => true
  {
  }

  /** Consuming changes one row at most and keeps its booking and sender. */
  ghost predicate ConsumedOne(rows: Rows, rows': Rows, i: RowId, decision: Decision)
    requires i in rows
  {
    && i in rows' && rows' == rows[i := rows'[i]]
    && rows'[i].key == rows[i].key && rows'[i].origin == rows[i].origin
    && (if decision == Eligible then rows[i].state.Claimed? && rows[i].dispatchedAt.None? && rows'[i].dispatchedAt.Some?
        else rows'[i].dispatchedAt == rows[i].dispatchedAt)
  }

  /** Blocking an unused claim keeps the rows safe. */
  lemma BlockingKeepsSafe(rows: Rows, h: Hashes, i: RowId)
    requires Safe(rows, h) && i in rows && rows[i].state.Claimed?
    ensures Safe(rows[i := rows[i].(state := Blocked)], h) && DispatchesKept(rows, rows[i := rows[i].(state := Blocked)])
  {
    assert !Locked(rows[i]);
    SameRowApart(rows, i);
    OneRowKeepsSafe(rows, h, i, rows[i].(state := Blocked));
  }

  /** Dispatching an unused claim keeps the rows safe when nobody is in the way. */
  lemma DispatchingKeepsSafe(rows: Rows, h: Hashes, i: RowId, now: Time)
    requires Safe(rows, h) && i in rows && rows[i].state.Claimed?
    requires !Competing(rows, h, rows[i].key, rows[i].phone, rows[i].email, rows[i].customer, Some(i), now)
    ensures rows[i].dispatchedAt.None?
    ensures var row := rows[i].(state := Unknown, dispatchedAt := Some(now));
      Safe(rows[i := row], h) && DispatchesKept(rows, rows[i := row])
  {
    assert !Locked(rows[i]);
    NobodyInTheWay(rows, h, i, now);
    SameRowApart(rows, i);
    OneRowKeepsSafe(rows, h, i, rows[i].(state := Unknown, dispatchedAt := Some(now)));
  }

  /** The three things a consume can do to the rows. */
  ghost predicate ConsumedAs(rows: Rows, h: Hashes, i: RowId, now: Time, decision: Decision, rows': Rows)
    requires i in rows
  {
    || (decision != Eligible && rows' == rows)
    || (decision != Eligible && rows[i].state.Claimed? && rows' == rows[i := rows[i].(state := Blocked)])
    || (decision == Eligible && rows[i].state.Claimed? && rows' == rows[i := rows[i].(state := Unknown, dispatchedAt := Some(now))]
        && !Competing(rows, h, rows[i].key, rows[i].phone, rows[i].email, rows[i].customer, Some(i), now))
  }

  lemma ConsumeDoes(rows: Rows, h: Hashes, i: RowId, phone: string, proof: Proof, now: Time, facts: Facts)
    requires i in rows
    ensures match Consume(rows, h, i, phone, proof, now, facts)
      case Consumed(decision, rows') => ConsumedAs(rows, h, i, now, decision, rows')
      case ConsumeRefused(_) => true
  {
  }

  lemma ConsumedAsKeepsSafe(rows: Rows, h: Hashes, i: RowId, now: Time, decision: Decision, rows': Rows)
    requires Safe(rows, h) && i in rows && ConsumedAs(rows, h, i, now, decision, rows')
    ensures Safe(rows', h) && DispatchesKept(rows, rows') && ConsumedOne(rows, rows', i, decision)
  {
    if decision == Eligible {
      DispatchingKeepsSafe(rows, h, i, now);
    } else if rows' != rows {
      BlockingKeepsSafe(rows, h, i);
    } else {
      assert rows == rows[i := rows[i]];
    }
  }

  /** Consuming keeps the rows safe; a permit is granted only to a row never dispatched before. */
  lemma ConsumeKeepsSafe(rows: Rows, h: Hashes, i: RowId, phone: string, proof: Proof, now: Time, facts: Facts)
    requires Safe(rows, h) && i in rows
    ensures match Consume(rows, h, i, phone, proof, now, facts)
      case Consumed(decision, rows') =>
        Safe(rows', h) && DispatchesKept(rows, rows') && ConsumedOne(rows, rows', i, decision)
      case ConsumeRefused(_) => true
  {
    ConsumeDoes(rows, h, i, phone, proof, now, facts);
    match Consume(rows, h, i, phone, proof, now, facts)
    case Consumed(decision, rows') => ConsumedAsKeepsSafe(rows, h, i, now, decision, rows');
    case ConsumeRefused(_) =>
  }

  lemma SameRowApart(rows: Rows, i: RowId)
    requires Unique(rows) && i in rows
    ensures forall j | j in rows && j != i :: rows[j].key != rows[i].key && rows[j].eventKey != rows[i].eventKey
  {
  }

  /** Without a competitor no dispatched row shares anything with row i. */
  lemma NobodyInTheWay(rows: Rows, h: Hashes, i: RowId, now: Time)
    requires Safe(rows, h) && i in rows
    requires !Competing(rows, h, rows[i].key, rows[i].phone, rows[i].email, rows[i].customer, Some(i), now)
    ensures forall j | j in rows && j != i && rows[j].dispatchedAt.Some? :: !ShareSomething(rows[i], rows[j])
  {
  }

  /** A ticket from an older generation of the row is refused and changes nothing. */
  lemma OldTicketsAreRefused(rows: Rows, h: Hashes, i: RowId, phone: string, ticket: Ticket, now: Time, facts: Facts)
    requires i in rows && ticket.generation != rows[i].generation
    ensures Consume(rows, h, i, phone, Signed(ticket), now, facts).ConsumeRefused?
  {
  }

  /** Recording an outcome leaves a dispatched row locked exactly under this condition. */
  predicate Harmless(row: Invitation, state: State)
  {
    row.dispatchedAt.Some? && (state.QueueFailed? || state.Blocked?) ==> Rank(row.state) > 0
  }

  lemma RecordKeepsSafe(rows: Rows, h: Hashes, i: RowId, state: State, providerId: string)
    requires Safe(rows, h) && i in rows && RecordError(rows[i], state, providerId).None?
    ensures Safe(rows[i := Recorded(rows[i], state, providerId)], h) <==> Harmless(rows[i], state)
    ensures DispatchesKept(rows, rows[i := Recorded(rows[i], state, providerId)])
  {
    var row := Recorded(rows[i], state, providerId);
    SameRowApart(rows, i);
    if Harmless(rows[i], state) {
      OneRowKeepsSafe(rows, h, i, row);
    } else {
      assert !Locked(rows[i := row][i]) && rows[i := row][i].dispatchedAt.Some?;
    }
  }

  /** When the condition fails a second permit for the same row is within reach: claim the
      same booking again once every open claim has expired, and consume it. */
  lemma HarmfulRecordAllowsSecondPermit(rows: Rows, h: Hashes, i: RowId, state: State, providerId: string)
      returns (r: Request, now: Time)
    requires Safe(rows, h) && h.NeverEmpty() && i in rows && rows[i].dispatchedAt.Some?
    requires RecordError(rows[i], state, providerId).None? && !Harmless(rows[i], state)
    ensures var rows1 := rows[i := Recorded(rows[i], state, providerId)];
      forall newId | newId !in rows1 ::
        var claim := Claim(rows1, h, r, now, false, false, newId);
        && claim.Answer? && claim.decision == Eligible && claim.row == Some(i) && i in claim.rows
        && var consumed := Consume(claim.rows, h, i, r.phone, NoProof, now, Facts(false, false, false, false));
           consumed.Consumed? && consumed.decision == Eligible
  {
    var rows1 := rows[i := Recorded(rows[i], state, providerId)];
    var row := rows1[i];
    now := LatestExpiry(rows1);
    r := Request(row.key, row.phone, row.email, row.customer, row.language, row.eventKey, row.origin, Email);
    OthersGiveWay(rows, rows1, h, i, now);
    forall newId | newId !in rows1
      ensures var claim := Claim(rows1, h, r, now, false, false, newId);
        && claim.Answer? && claim.decision == Eligible && claim.row == Some(i) && i in claim.rows
        && var consumed := Consume(claim.rows, h, i, r.phone, NoProof, now, Facts(false, false, false, false));
           consumed.Consumed? && consumed.decision == Eligible
    {
      FreedRowIsClaimed(rows1, h, i, r, now, newId);
      ReopenedRowIsGranted(rows1, h, i, r, now);
    }
  }

  /** Everything else that concerns the dispatched row's guest may be claimed again. */
  lemma OthersGiveWay(rows: Rows, rows1: Rows, h: Hashes, i: RowId, now: Time)
    requires Safe(rows, h) && h.NeverEmpty() && i in rows && rows[i].dispatchedAt.Some?
    requires i in rows1 && rows1 == rows[i := rows1[i]] && forall j | j in rows1 :: rows1[j].expiresAt <= now
    requires rows1[i].key == rows[i].key && rows1[i].phone == rows[i].phone && rows1[i].email == rows[i].email && rows1[i].customer == rows[i].customer
    ensures forall j | j in rows1 && j != i ::
      !Concerns(rows1[j], h, rows1[i].key, rows1[i].phone, rows1[i].email, rows1[i].customer) || Retryable(rows1[j], now)
  {
    forall j | j in rows1 && j != i
      ensures !Concerns(rows1[j], h, rows1[i].key, rows1[i].phone, rows1[i].email, rows1[i].customer) || Retryable(rows1[j], now)
    {
      assert rows1[j] == rows[j];
      if Locked(rows[j]) {
        assert !ShareSomething(rows[i], rows[j]);
      }
    }
  }

  /** The row reopened for the request. */
  function Reopened(row: Invitation, h: Hashes, r: Request, now: Time): Invitation
  {
    Filled(row, h, r, now).(generation := row.generation + 1)
  }

  lemma FreedRowIsClaimed(rows: Rows, h: Hashes, i: RowId, r: Request, now: Time, newId: RowId)
    requires Unique(rows) && i in rows && Retryable(rows[i], now) && !rows[i].state.Claimed?
    requires r.key == rows[i].key && r.eventKey == rows[i].eventKey && r.channel.Email?
    requires forall j | j in rows && j != i :: !Concerns(rows[j], h, r.key, r.phone, r.email, r.customer) || Retryable(rows[j], now)
    ensures Claim(rows, h, r, now, false, false, newId) == Answer(Eligible, Some(i), rows[i := Reopened(rows[i], h, r, now)])
  {
    assert HasKey(rows, r.key, i);
    assert ByKey(rows, r.key) == Some(i);
  }

  lemma ReopenedRowIsGranted(rows: Rows, h: Hashes, i: RowId, r: Request, now: Time)
    requires i in rows && r.key == rows[i].key
    requires forall j | j in rows && j != i :: !Concerns(rows[j], h, r.key, r.phone, r.email, r.customer) || Retryable(rows[j], now)
    ensures var consumed := Consume(rows[i := Reopened(rows[i], h, r, now)], h, i, r.phone, NoProof, now, Facts(false, false, false, false));
      consumed.Consumed? && consumed.decision == Eligible
  {
    var rows2 := rows[i := Reopened(rows[i], h, r, now)];
    assert forall j | j in rows2 && j != i :: rows2[j] == rows[j];
  }

  lemma {:induction false} LatestExpiry(rows: Rows) returns (now: Time)
    ensures forall j | j in rows :: rows[j].expiresAt <= now
    decreases |rows|
  {
    if rows == map[] {
      now := 0;
    } else {
      var x :| x in rows;
      now := LatestExpiry(rows - {x});
      if now < rows[x].expiresAt {
        now := rows[x].expiresAt;
      }
      forall j | j in rows
        ensures rows[j].expiresAt <= now
      {
        assert j == x || j in rows - {x};
      }
    }
  }

  // ----- Outcomes may arrive in any order -----

  datatype Report = Report(state: State, providerId: string)

  /** A row after a list of reports, refused ones leaving it as it is. */
  function After(row: Invitation, reports: seq<Report>): Invitation
  {
    if reports == [] then row
    else
      var before, last := After(row, reports[..|reports| - 1]), reports[|reports| - 1];
      if RecordError(before, last.state, last.providerId).None? then Recorded(before, last.state, last.providerId) else before
  }

  /** Every report of the list is accepted when its turn comes. */
  ghost predicate AllAccepted(row: Invitation, reports: seq<Report>)
  {
    reports == [] ||
    (AllAccepted(row, reports[..|reports| - 1])
     && RecordError(After(row, reports[..|reports| - 1]), reports[|reports| - 1].state, reports[|reports| - 1].providerId).None?)
  }

  /** The state with a given positive rank. */
  function OfRank(rank: nat): State
    requires 1 <= rank <= 3
    ensures Rank(OfRank(rank)) == rank
  {
    if rank == 1 then Accepted else if rank == 2 then Delivered else Read
  }

  function Max(a: nat, b: nat): nat { if a >= b then a else b }

  function TopRank(reports: seq<Report>): nat
    ensures TopRank(reports) <= 3
  {
    if reports == [] then 0 else Max(TopRank(reports[..|reports| - 1]), Rank(reports[|reports| - 1].state))
  }

  function Statuses(reports: seq<Report>): set<State> { set r | r in reports :: r.state }

  function Listed(row: Invitation): set<State> { set s | s in row.outcomes }

  ghost predicate NoRepeats(states: seq<State>) { forall j, k | 0 <= j < k < |states| :: states[j] != states[k] }

  /** The rank a row ends at is the highest one reported or held: ranks never drop. */
  lemma {:induction false} RanksNeverDrop(row: Invitation, reports: seq<Report>)
    requires AllAccepted(row, reports)
    ensures Rank(After(row, reports).state) == Max(Rank(row.state), TopRank(reports))
  {
    if reports != [] {
      RanksNeverDrop(row, reports[..|reports| - 1]);
    }
  }

  /** The provider's id is written once and is the id of every accepted report that carries one. */
  lemma {:induction false} ProviderIdWrittenOnce(row: Invitation, reports: seq<Report>)
    requires AllAccepted(row, reports)
    ensures row.providerId != "" ==> After(row, reports).providerId == row.providerId
    ensures forall r | r in reports && r.providerId != "" :: After(row, reports).providerId == r.providerId
    ensures After(row, reports).providerId == row.providerId
         || exists r :: r in reports && r.providerId == After(row, reports).providerId
  {
    if reports != [] {
      var before, last := reports[..|reports| - 1], reports[|reports| - 1];
      ProviderIdWrittenOnce(row, before);
      assert reports == before + [last] && last in reports;
    }
  }

  lemma RecordedLists(row: Invitation, state: State, providerId: string)
    ensures Listed(Recorded(row, state, providerId)) == Listed(row) + {state}
    ensures NoRepeats(row.outcomes) ==> NoRepeats(Recorded(row, state, providerId).outcomes)
  {
  }

  lemma StatusesMore(before: seq<Report>, last: Report)
    ensures Statuses(before + [last]) == Statuses(before) + {last.state}
  {
  }

  /** Every reported status is listed, once. */
  lemma {:induction false} StatusesListedOnce(row: Invitation, reports: seq<Report>)
    requires AllAccepted(row, reports)
    ensures Listed(After(row, reports)) == Listed(row) + Statuses(reports)
    ensures NoRepeats(row.outcomes) ==> NoRepeats(After(row, reports).outcomes)
  {
    if reports != [] {
      var before, last := reports[..|reports| - 1], reports[|reports| - 1];
      StatusesListedOnce(row, before);
      assert reports == before + [last];
      StatusesMore(before, last);
      RecordedLists(After(row, before), last.state, last.providerId);
    }
  }

  lemma SameReportsSameTop(a: seq<Report>, b: seq<Report>)
    requires forall r :: r in a <==> r in b
    ensures TopRank(a) == TopRank(b)
  {
    TopIsReached(a);
    TopIsReached(b);
  }

  lemma {:induction false} TopIsReached(a: seq<Report>)
    ensures forall r | r in a :: Rank(r.state) <= TopRank(a)
    ensures TopRank(a) > 0 ==> exists r :: r in a && Rank(r.state) == TopRank(a)
  {
    if a != [] {
      TopIsReached(a[..|a| - 1]);
      assert a == a[..|a| - 1] + [a[|a| - 1]];
      assert a[|a| - 1] in a;
    }
  }

  lemma RankIsState(s: State)
    ensures Rank(s) > 0 ==> s == OfRank(Rank(s))
  {
  }

  /** Two orders of the same accepted reports leave the row in the same state with the same
      provider id and the same listed statuses, once anything above rank zero is involved. */
  lemma OrderDoesNotMatter(row: Invitation, a: seq<Report>, b: seq<Report>)
    requires AllAccepted(row, a) && AllAccepted(row, b)
    requires multiset(a) == multiset(b)
    requires Rank(row.state) > 0 || exists r :: r in a && Rank(r.state) > 0
    ensures After(row, a).state == After(row, b).state
    ensures After(row, a).providerId == After(row, b).providerId
    ensures Listed(After(row, a)) == Listed(After(row, b))
  {
    SameMembers(a, b);
    RanksNeverDrop(row, a);
    RanksNeverDrop(row, b);
    ProviderIdWrittenOnce(row, a);
    ProviderIdWrittenOnce(row, b);
    StatusesListedOnce(row, a);
    StatusesListedOnce(row, b);
    SameReportsSameTop(a, b);
    TopIsReached(a);
    RankIsState(After(row, a).state);
    RankIsState(After(row, b).state);
  }

  lemma SameMembers(a: seq<Report>, b: seq<Report>)
    requires multiset(a) == multiset(b)
    ensures forall r :: r in a <==> r in b
  {
    forall r
      ensures r in a <==> r in b
    {
      assert r in a <==> r in multiset(a);
      assert r in b <==> r in multiset(b);
    }
  }

  /** Without a ranked report the order shows: the last of `unknown` and `failed` wins. */
  lemma UnrankedOrderMatters(row: Invitation)
    requires row.dispatchedAt.Some? && Rank(row.state) == 0
    ensures var a, b := [Report(Unknown, ""), Report(Failed, "")], [Report(Failed, ""), Report(Unknown, "")];
      && AllAccepted(row, a) && AllAccepted(row, b) && multiset(a) == multiset(b)
      && After(row, a).state == Failed && After(row, b).state == Unknown
  {
    var u, f := Report(Unknown, ""), Report(Failed, "");
    LastUnrankedWins(row, u, f);
    LastUnrankedWins(row, f, u);
    assert multiset([u, f]) == multiset{u, f} == multiset([f, u]);
  }

  lemma LastUnrankedWins(row: Invitation, x: Report, y: Report)
    requires row.dispatchedAt.Some? && Rank(row.state) == Rank(x.state) == Rank(y.state) == 0
    requires !x.state.Claimed? && !y.state.Claimed? && x.providerId == y.providerId == ""
    ensures AllAccepted(row, [x, y]) && After(row, [x, y]).state == y.state
  {
    assert [] + [x] == [x] && [x] + [y] == [x, y];
    OneMoreReport(row, [], x);
    OneMoreReport(row, [x], y);
  }

  lemma OneMoreReport(row: Invitation, before: seq<Report>, last: Report)
    requires AllAccepted(row, before) && RecordError(After(row, before), last.state, last.providerId).None?
    ensures AllAccepted(row, before + [last])
    ensures After(row, before + [last]) == Recorded(After(row, before), last.state, last.providerId)
  {
  }

  /** Among unranked reports the last one decides the state. */
  lemma {:induction false} LastReportWins(row: Invitation, reports: seq<Report>)
    requires AllAccepted(row, reports) && reports != []
    requires Rank(row.state) == 0 && forall r | r in reports :: Rank(r.state) == 0
    ensures After(row, reports).state == reports[|reports| - 1].state
  {
    var before := reports[..|reports| - 1];
    if before != [] {
      LastReportWins(row, before);
    }
  }

  /** Two orders of the same reports end in the same state exactly when a ranked state is
      involved or both end with the same status. */
  lemma OrderMattersExactly(row: Invitation, a: seq<Report>, b: seq<Report>)
    requires AllAccepted(row, a) && AllAccepted(row, b)
    requires multiset(a) == multiset(b) && a != []
    ensures b != []
    ensures After(row, a).state == After(row, b).state <==>
      Rank(row.state) > 0 || (exists r :: r in a && Rank(r.state) > 0) || a[|a| - 1].state == b[|b| - 1].state
  {
    assert |a| == |multiset(a)| == |multiset(b)| == |b|;
    SameMembers(a, b);
    if Rank(row.state) > 0 || exists r :: r in a && Rank(r.state) > 0 {
      OrderDoesNotMatter(row, a, b);
    } else {
      LastReportWins(row, a);
      LastReportWins(row, b);
    }
  }

  lemma ClaimNeedsNoMember(rows: Rows, h: Hashes, r: Request, now: Time, legacy: bool, newId: RowId)
    ensures match Claim(rows, h, r, now, true, legacy, newId)
      case Answer(Eligible, _, _) => false
      case _ => true
  {
  }

  // ----- Generations -----

  /** Rows stay, generations never go back, and contacts change only with the generation. */
  ghost predicate Renewed(rows: Rows, rows': Rows)
  {
    forall i {:trigger rows'[i]} {:trigger i in rows'} | i in rows :: i in rows' && RowRenewed(rows[i], rows'[i])
  }

  predicate RowRenewed(a: Invitation, b: Invitation)
  {
    a.generation <= b.generation && (a.generation == b.generation ==> b.phoneDigest == a.phoneDigest)
  }

  lemma RenewedTransitive(a: Rows, b: Rows, c: Rows)
    requires Renewed(a, b) && Renewed(b, c)
    ensures Renewed(a, c)
  {
    forall i | i in a ensures i in c && RowRenewed(a[i], c[i]) {
      assert RowRenewed(a[i], b[i]) && RowRenewed(b[i], c[i]);
    }
  }

  /** A claim that changes a row reopens it under the next generation. */
  lemma ClaimRenews(rows: Rows, h: Hashes, r: Request, now: Time, member: bool, legacy: bool, newId: RowId)
    requires newId !in rows
    ensures match Claim(rows, h, r, now, member, legacy, newId)
      case Answer(_, _, rows') =>
        && Renewed(rows, rows')
        && forall i | i in rows && rows'[i] != rows[i] :: rows'[i].generation == rows[i].generation + 1
      case Refused(_) => true
  {
  }

  lemma ConsumeRenews(rows: Rows, h: Hashes, i: RowId, phone: string, proof: Proof, now: Time, facts: Facts)
    requires i in rows
    ensures match Consume(rows, h, i, phone, proof, now, facts)
      case Consumed(_, rows') => Renewed(rows, rows')
      case ConsumeRefused(_) => true
  {
  }

  /** A ticket is good later exactly while its row keeps the generation and it is young enough. */
  lemma TicketGoodExactly(rows: Rows, rows': Rows, i: RowId, at: Time, now: Time)
    requires i in rows && Renewed(rows, rows')
    ensures i in rows'
    ensures ProofError(rows', i, Signed(TicketFor(rows, i, at)), now).None? <==>
      rows'[i].generation == rows[i].generation && now - at <= TTL
  {
    assert RowRenewed(rows[i], rows'[i]);
  }
}
