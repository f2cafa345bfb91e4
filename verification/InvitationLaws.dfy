/** When the two senders get through, in the fields of rows, requests and contacts. */
module InvitationLaws {
  import opened Wrappers
  import opened InvitationRegistry
  import opened BookingInvitations
  import RegistryLaws

  /** The request shows an invitation on its way, to this booking or to this number or address. */
  predicate OnItsWay(w: World, h: Hashes, p: RequestId, key: Key, phone: string, email: string)
    requires p in w.requests
  {
    var r := w.requests[p];
    && (r.status == Queued || r.status == Sending || r.status == WasAccepted || r.status == Uncertain)
    && (|| (r.booking in w.keyOf && w.keyOf[r.booking] == key)
        || (phone != "" && r.phoneDigest == Some(h.phone(phone)))
        || (email != "" && r.emailDigest == Some(h.email(email))))
  }

  /** Neither an older receipt nor another request of the website is on its way. */
  ghost predicate NothingOnItsWay(w: World, h: Hashes, key: Key, phone: string, email: string, exclude: Option<RequestId>, old_: bool)
  {
    !old_ && forall p | p in w.requests && Some(p) != exclude :: !OnItsWay(w, h, p, key, phone, email)
  }

  lemma LegacyExactly(w: World, h: Hashes, key: Key, phone: string, email: string, exclude: Option<RequestId>, old_: bool)
    ensures Legacy(w, h, key, phone, email, exclude, old_) <==> !NothingOnItsWay(w, h, key, phone, email, exclude, old_)
  {
  }

  /** The row of the booking, if it has one, can be claimed for this request. */
  ghost predicate OwnRowAllows(rows: Rows, r: Request, now: Time)
  {
    forall i | i in rows && rows[i].key == r.key ::
      RegistryLaws.GivesWay(rows[i], now)
      || (RegistryLaws.StillClaimed(rows[i], r, now) && rows[i].phone == r.phone && rows[i].email == r.email && rows[i].language == r.language)
  }

  /** No row of another booking of this person stands in the way. */
  ghost predicate OthersAllow(rows: Rows, h: Hashes, r: Request, now: Time)
  {
    forall i | i in rows && rows[i].key != r.key && RegistryLaws.SamePerson(rows[i], h, r.phone, r.email, r.customer) ::
      RegistryLaws.GivesWay(rows[i], now)
  }

  /** When a request is granted, whether its booking has a row or not. */
  ghost predicate Grantable(w: World, h: Hashes, r: Request, now: Time, member: bool, old_: bool)
  {
    && RegistryLaws.MayAsk(w.rows, r, member, false) && NothingOnItsWay(w, h, r.key, r.phone, r.email, None, old_)
    && OwnRowAllows(w.rows, r, now) && OthersAllow(w.rows, h, r, now)
  }

  lemma ClaimExactly(w: World, h: Hashes, r: Request, now: Time, member: bool, old_: bool, newId: RowId)
    requires Unique(w.rows) && newId !in w.rows
    ensures RegistryLaws.Eligibly(Claim(w.rows, h, r, now, member, Legacy(w, h, r.key, r.phone, r.email, None, old_), newId)) <==>
      Grantable(w, h, r, now, member, old_)
  {
    LegacyExactly(w, h, r.key, r.phone, r.email, None, old_);
    var legacy := Legacy(w, h, r.key, r.phone, r.email, None, old_);
    if i :| i in w.rows && w.rows[i].key == r.key {
      RegistryLaws.NextClaimExactly(w.rows, h, r, now, member, legacy, newId, i);
    } else {
      RegistryLaws.FirstClaimExactly(w.rows, h, r, now, member, legacy, newId);
    }
  }

  /** The automation's claim opens a row, or finds it open, exactly when the booking is not closed
      and its request can be granted. */
  lemma AutoClaimExactly(w: World, h: Hashes, key: Key, target: Target, reference: string,
                         now: Time, member: bool, old_: bool, newId: RowId)
    requires Unique(w.rows) && newId !in w.rows
    ensures BookingInvitations.Eligibly(AutoAnswer(w, h, key, target, reference, now, member, old_, newId)) <==>
      Grantable(w, h, Asked(key, target, reference), now, member, old_)
  {
    ClaimExactly(w, h, Asked(key, target, reference), now, member, old_, newId);
  }

  /** A granted booking without a row gets the new one, filled for the request in its first
      generation; nothing else in the registry changes. */
  lemma FirstGrantFills(w: World, h: Hashes, r: Request, now: Time, member: bool, old_: bool, newId: RowId)
    requires Unique(w.rows) && newId !in w.rows && Grantable(w, h, r, now, member, old_)
    requires forall i | i in w.rows :: w.rows[i].key != r.key
    ensures var claim := Claim(w.rows, h, r, now, member, Legacy(w, h, r.key, r.phone, r.email, None, old_), newId);
      && RegistryLaws.Eligibly(claim) && claim.row == Some(newId) && newId in claim.rows && claim.rows == w.rows[newId := claim.rows[newId]]
      && RegistryLaws.FilledFor(claim.rows[newId], h, r, now, 1)
  {
    ClaimExactly(w, h, r, now, member, old_, newId);
    RegistryLaws.FirstClaimExactly(w.rows, h, r, now, member, Legacy(w, h, r.key, r.phone, r.email, None, old_), newId);
  }

  /** A press not yet saved is saved exactly when its request can be granted. */
  lemma QueueExactly(w: World, h: Hashes, b: BookingId, q: RequestId, target: Target, channel: Channel,
                     now: Time, member: bool, old_: bool, newId: RowId)
    requires Safe(w.rows, h) && b in w.keyOf && newId !in w.rows && q !in w.requests
    ensures var w' := Queue(w, h, b, q, target, channel, now, member, old_, newId);
      && (q in w'.requests <==> Grantable(w, h, Press(w, b, q, target, channel), now, member, old_))
      && (q in w'.requests ==>
            && w'.requests[q].booking == b && w'.requests[q].channel == channel && w'.requests[q].target == target && w'.requests[q].requestedAt == now
            && w'.requests[q].phoneDigest == (if channel.Whatsapp? then Some(h.phone(target.phone)) else None)
            && w'.requests[q].emailDigest == (if channel.Email? then Some(h.email(target.email)) else None))
      && (q !in w'.requests ==> w' == w)
  {
    var r, legacy := Press(w, b, q, target, channel), Legacy(w, h, w.keyOf[b], target.phone, target.email, None, old_);
    ClaimExactly(w, h, r, now, member, old_, newId);
    ClaimOpens(w.rows, h, r, now, member, legacy, newId);
  }

  /** The delivery task calls the provider exactly for a request still queued, at most fifteen
      minutes old, whose booking is ready and contacts are those it was saved with, on a permit of
      its own row. */
  ghost predicate Deliverable(w: World, h: Hashes, q: RequestId, target: Target, ready: bool, now: Time, facts: Facts)
    requires q in w.requests && w.requests[q].shared in w.rows
  {
    var (r, row) := (w.requests[q], w.rows[w.requests[q].shared]);
    && r.status == Queued && ready && now - r.requestedAt <= 900
    && r.target.phone == target.phone && r.target.language == target.language && (r.channel.Email? ==> r.target.email == target.email)
    && row.phone == target.phone && row.state == Claimed && now < row.expiresAt
    && !facts.bookingUnknown && !facts.member && (row.origin == N8n ==> !facts.closed)
    && NothingOnItsWay(w, h, row.key, row.phone, row.email, Some(q), facts.legacy)
    && RegistryLaws.WayIsFree(w.rows, h, row.key, row.phone, row.email, row.customer, Some(r.shared), now)
  }

  lemma DeliverExactly(w: World, h: Hashes, q: RequestId, target: Target, ready: bool, now: Time, facts: Facts)
    requires q in w.requests && w.requests[q].shared in w.rows
    ensures Deliver(w, h, q, target, ready, now, facts).calls != w.calls <==> Deliverable(w, h, q, target, ready, now, facts)
  {
    var i := w.requests[q].shared;
    LegacyExactly(w, h, w.rows[i].key, w.rows[i].phone, w.rows[i].email, Some(q), facts.legacy);
    var legacy := Legacy(w, h, w.rows[i].key, w.rows[i].phone, w.rows[i].email, Some(q), facts.legacy);
    RegistryLaws.ConsumeExactly(w.rows, h, i, target.phone, NoProof, now, facts.(legacy := legacy));
    PermissionMoves(w, q, Permission(w, h, q, target.phone, now, facts));
    CallsMove(w, q, Permission(w, h, q, target.phone, now, facts));
  }

  lemma CallsMove(w: World, q: RequestId, result: ConsumeResult)
    requires q in w.requests && w.requests[q].shared in w.rows
    ensures AfterPermission(w, q, result).calls != w.calls <==> result.Consumed? && result.decision == Eligible
  {
    assert Count(w.calls, q) + 1 != Count(w.calls, q);
  }

  /** The automation gets the permit of its row exactly on a signed, young ticket of the row's present
      generation, and when the row can be consumed. */
  ghost predicate Permissible(w: World, h: Hashes, i: RowId, phone: string, proof: Proof, now: Time, facts: Facts)
    requires i in w.rows
  {
    var row := w.rows[i];
    && row.origin == N8n && proof.Signed? && RegistryLaws.TicketStands(w.rows, i, proof, now)
    && row.phone == phone && row.state == Claimed && now < row.expiresAt
    && !facts.bookingUnknown && !facts.member && !facts.closed
    && NothingOnItsWay(w, h, row.key, row.phone, row.email, None, facts.legacy)
    && RegistryLaws.WayIsFree(w.rows, h, row.key, row.phone, row.email, row.customer, Some(i), now)
  }

  lemma PreflightExactly(w: World, h: Hashes, i: RowId, phone: string, proof: Proof, now: Time, facts: Facts)
    requires i in w.rows && w.rows[i].origin.N8n? && !proof.NoProof?
    ensures Granted(Preflighted(w, h, i, phone, proof, now, facts)) <==> Permissible(w, h, i, phone, proof, now, facts)
  {
    LegacyExactly(w, h, w.rows[i].key, w.rows[i].phone, w.rows[i].email, None, facts.legacy);
    var legacy := Legacy(w, h, w.rows[i].key, w.rows[i].phone, w.rows[i].email, None, facts.legacy);
    RegistryLaws.ConsumeExactly(w.rows, h, i, phone, proof, now, facts.(legacy := legacy));
  }

  /** The provider's answer is booked exactly for a request being sent whose row takes it. */
  lemma FinishExactly(w: World, q: RequestId, accepted: bool, providerId: string)
    requires q in w.requests && w.requests[q].shared in w.rows
    ensures var (row, w') := (w.rows[w.requests[q].shared], Finish(w, q, accepted, providerId));
      (w'.requests[q].status != w.requests[q].status <==>
        && w.requests[q].status == Sending && row.dispatchedAt.Some?
        && (accepted ==> (row.origin == N8n ==> providerId != "") && (row.providerId == "" || providerId == "" || row.providerId == providerId)))
  {
  }

  /** A report the automation may make: an outcome of a dispatched row of its own, with the
      provider's id where the message got out, and not against the id already known. */
  predicate OwnOutcome(row: Invitation, state: State, providerId: string)
  {
    && state in {Accepted, Unknown, Delivered, Read, Failed} && row.origin == N8n && row.dispatchedAt.Some?
    && (state in {Accepted, Delivered, Read} ==> providerId != "")
    && (row.providerId == "" || providerId == "" || row.providerId == providerId)
  }

  lemma TakenExactly(row: Invitation, state: State, providerId: string)
    ensures Taken(row, state, providerId) <==> OwnOutcome(row, state, providerId)
  {
  }

  /** A request the broker refused while it was still queued is over, and its row, never
      dispatched, is given up; any other request stays as it is. */
  lemma DispatchFailsExactly(w: World, h: Hashes, q: RequestId)
    requires Invariant(w, h) && q in w.requests && w.requests[q].shared in w.rows
    ensures var (r, i, w') := (w.requests[q], w.requests[q].shared, DispatchFails(w, q));
      if r.status == Queued then
        && w'.requests == w.requests[q := r.(status := QueueRefused)]
        && i in w'.rows && w'.rows == w.rows[i := w'.rows[i]] && w'.rows[i].state == QueueFailed
      else w' == w
  {
    if w.requests[q].status.Queued? {
      assert Waiting(w, w.requests[q]);
    }
  }
}
