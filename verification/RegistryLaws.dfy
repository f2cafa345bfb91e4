/** When the shared registry grants, refuses and records, in the fields of rows and requests. */
module RegistryLaws {
  import opened Wrappers
  import opened InvitationRegistry

  /** A row that no longer stands in the way of a claim: it was given up, or its claim of five
      minutes ran out. */
  predicate GivesWay(row: Invitation, now: Time)
  {
    row.state == Blocked || row.state == QueueFailed || (row.state == Claimed && row.expiresAt <= now)
  }

  /** The row is of the same person: by number, by address, or by account. */
  predicate SamePerson(row: Invitation, h: Hashes, phone: string, email: string, customer: Option<Customer>)
  {
    || (phone != "" && row.phoneDigest == h.phone(phone))
    || (email != "" && row.emailDigest == h.email(email))
    || (customer.Some? && row.customer == customer)
  }

  /** No row other than `own` of this booking or person stands in the way. */
  ghost predicate WayIsFree(rows: Rows, h: Hashes, key: Key, phone: string, email: string, customer: Option<Customer>, own: Option<RowId>, now: Time)
  {
    forall i | i in rows && Some(i) != own && (rows[i].key == key || SamePerson(rows[i], h, phone, email, customer)) :: GivesWay(rows[i], now)
  }

  /** What any grant asks: nobody's other booking used this event, the guest is no member and has
      no receipt in flight, and WhatsApp has a number. */
  ghost predicate MayAsk(rows: Rows, r: Request, member: bool, legacy: bool)
  {
    && (forall i | i in rows && rows[i].eventKey == r.eventKey :: rows[i].key == r.key)
    && !member && !legacy && (r.phone != "" || r.channel.Email?)
  }

  ghost predicate Eligibly(claim: ClaimResult) { claim.Answer? && claim.decision == Eligible }

  /** The row as a claim for this request fills it, under this generation. */
  predicate FilledFor(row: Invitation, h: Hashes, r: Request, now: Time, generation: nat)
  {
    && row.key == r.key && row.eventKey == r.eventKey && row.origin == r.origin && row.customer == r.customer && row.language == r.language
    && row.phone == r.phone && row.email == r.email && row.phoneDigest == h.Phone(r.phone) && row.emailDigest == h.Email(r.email)
    && row.state == Claimed && row.expiresAt == now + 300 && row.generation == generation
  }

  /** A booking without a row is granted exactly when it may ask and nobody is in the way; it then
      gets the new row, in its first generation and for five minutes, and nothing else changes. */
  lemma FirstClaimExactly(rows: Rows, h: Hashes, r: Request, now: Time, member: bool, legacy: bool, newId: RowId)
    requires newId !in rows && forall i | i in rows :: rows[i].key != r.key
    ensures var claim := Claim(rows, h, r, now, member, legacy, newId);
      && (Eligibly(claim) <==> MayAsk(rows, r, member, legacy) && WayIsFree(rows, h, r.key, r.phone, r.email, r.customer, None, now))
      && (Eligibly(claim) ==>
            && claim.row == Some(newId) && newId in claim.rows && claim.rows == rows[newId := claim.rows[newId]]
            && FilledFor(claim.rows[newId], h, r, now, 1)
            && claim.rows[newId].dispatchedAt.None? && claim.rows[newId].providerId == "" && claim.rows[newId].outcomes == [])
  {
    NoRowOfKey(rows, r.key);
  }

  lemma NoRowOfKey(rows: Rows, key: Key)
    requires forall i | i in rows :: rows[i].key != key
    ensures ByKey(rows, key).None?
  {
  }

  lemma RowOfKey(rows: Rows, i: RowId)
    requires Unique(rows) && i in rows
    ensures ByKey(rows, rows[i].key) == Some(i)
  {
    assert HasKey(rows, rows[i].key, i);
  }

  /** The row is still claimed for this very event. */
  predicate StillClaimed(row: Invitation, r: Request, now: Time)
  {
    row.state == Claimed && row.eventKey == r.eventKey && row.expiresAt > now
  }

  /** A booking that has row i is granted exactly when it may ask, nobody else is in the way, and
      the row was given up or ran out, or is still claimed for this very event with the same
      contacts. A claim repeated in time changes nothing; any other reopens the row under the next
      generation, for five minutes. */
  lemma NextClaimExactly(rows: Rows, h: Hashes, r: Request, now: Time, member: bool, legacy: bool, newId: RowId, i: RowId)
    requires Unique(rows) && i in rows && rows[i].key == r.key && newId !in rows
    ensures var claim := Claim(rows, h, r, now, member, legacy, newId);
      && (Eligibly(claim) <==>
            && MayAsk(rows, r, member, legacy) && WayIsFree(rows, h, r.key, r.phone, r.email, r.customer, Some(i), now)
            && (GivesWay(rows[i], now)
                || (StillClaimed(rows[i], r, now) && rows[i].phone == r.phone && rows[i].email == r.email && rows[i].language == r.language)))
      && (Eligibly(claim) ==>
            && claim.row == Some(i) && i in claim.rows && claim.rows == rows[i := claim.rows[i]]
            && (if StillClaimed(rows[i], r, now) then claim.rows[i] == rows[i]
                else FilledFor(claim.rows[i], h, r, now, rows[i].generation + 1)
                     && claim.rows[i].dispatchedAt == rows[i].dispatchedAt && claim.rows[i].providerId == rows[i].providerId
                     && claim.rows[i].outcomes == rows[i].outcomes))
  {
    RowOfKey(rows, i);
  }

  /** The ticket shown, if any, is signed, for this row as it is now, and at most five minutes old. */
  predicate TicketStands(rows: Rows, i: RowId, proof: Proof, now: Time)
    requires i in rows
  {
    match proof
    case NoProof => true
    case BadSignature => false
    case Signed(t) => t.id == i && t.phoneDigest == rows[i].phoneDigest && t.generation == rows[i].generation && now - t.issuedAt <= 300
  }

  /** A permit is granted exactly on a standing ticket, for the phone and within the five minutes the
      row was claimed for, to a guest who is no member and has no receipt in flight, for a known
      booking that the automation does not see closed, with nobody else in the way. The row is then
      dispatched with an open outcome and keeps everything else. */
  lemma ConsumeExactly(rows: Rows, h: Hashes, i: RowId, phone: string, proof: Proof, now: Time, facts: Facts)
    requires i in rows
    ensures var (result, row) := (Consume(rows, h, i, phone, proof, now, facts), rows[i]);
      && (result.Consumed? && result.decision == Eligible <==>
            && TicketStands(rows, i, proof, now) && row.phone == phone && row.state == Claimed && now < row.expiresAt
            && !facts.bookingUnknown && !facts.member && !facts.legacy && (row.origin == N8n ==> !facts.closed)
            && WayIsFree(rows, h, row.key, row.phone, row.email, row.customer, Some(i), now))
      && (result.Consumed? && result.decision == Eligible ==> result.rows == rows[i := row.(state := Unknown, dispatchedAt := Some(now))])
  {
    assert WayIsFree(rows, h, rows[i].key, rows[i].phone, rows[i].email, rows[i].customer, Some(i), now) <==>
      !Competing(rows, h, rows[i].key, rows[i].phone, rows[i].email, rows[i].customer, Some(i), now);
  }

  /** A consume that grants nothing either changes nothing or gives an open claim up. */
  lemma RefusedConsumeExactly(rows: Rows, h: Hashes, i: RowId, phone: string, proof: Proof, now: Time, facts: Facts)
    requires i in rows
    requires var result := Consume(rows, h, i, phone, proof, now, facts); result.Consumed? && result.decision != Eligible
    ensures var (rows', row) := (Consume(rows, h, i, phone, proof, now, facts).rows, rows[i]);
      && TicketStands(rows, i, proof, now) && row.phone == phone && !facts.bookingUnknown
      && rows' == if row.state == Claimed then rows[i := row.(state := Blocked)] else rows
  {
  }

  /** A report is taken exactly when it is no claim, a ranked one of the automation names the
      provider's id, the id does not contradict the one known, and the row was dispatched unless the
      report gives it up. */
  lemma RecordExactly(row: Invitation, state: State, providerId: string)
    ensures RecordError(row, state, providerId).None? <==>
      && state != Claimed
      && (state in {Accepted, Delivered, Read} && row.origin == N8n ==> providerId != "")
      && (row.providerId == "" || providerId == "" || row.providerId == providerId)
      && (row.dispatchedAt.Some? || state == QueueFailed || state == Blocked)
  {
  }

  /** The guest's phone showed this much of the message. */
  ghost predicate Shown(row: Invitation, reports: seq<Report>, state: State)
  {
    row.state == state || exists r :: r in reports && r.state == state
  }

  lemma ShownBefore(row: Invitation, reports: seq<Report>, state: State)
    requires reports != []
    ensures Shown(row, reports, state) <==> (Shown(row, reports[..|reports| - 1], state) || reports[|reports| - 1].state == state)
  {
    assert reports == reports[..|reports| - 1] + [reports[|reports| - 1]];
  }

  /** Whatever the order of the reports, a message once read stays read, else delivered, else
      accepted; only where none of these was held or reported does the last report stand. */
  lemma {:induction false} FinalStateExactly(row: Invitation, reports: seq<Report>)
    requires AllAccepted(row, reports)
    ensures After(row, reports).state ==
      if Shown(row, reports, Read) then Read
      else if Shown(row, reports, Delivered) then Delivered
      else if Shown(row, reports, Accepted) then Accepted
      else if reports == [] then row.state
      else reports[|reports| - 1].state
  {
    if reports != [] {
      FinalStateExactly(row, reports[..|reports| - 1]);
      ShownBefore(row, reports, Read);
      ShownBefore(row, reports, Delivered);
      ShownBefore(row, reports, Accepted);
    }
  }
}
