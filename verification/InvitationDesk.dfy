/** The shared registry and the website's requests as they are updated in place. */
module InvitationDesk {
  import opened Wrappers
  import opened InvitationRegistry
  import opened BookingInvitations
  import InvitationLaws

  class Desk {
    const h: Hashes
    var rows: Rows
    var requests: map<RequestId, WebRequest>
    var keyOf: map<BookingId, Key>
    /** The same tables with every permit and provider call counted. */
    ghost var world: World

    /** The ghost world is these tables, and it satisfies everything both senders keep. */
    ghost predicate Valid()
      reads this
    {
      Mirrored() && BookingInvitations.Invariant(world, h)
    }

    ghost predicate Mirrored()
      reads this
    {
      world.rows == rows && world.requests == requests && world.keyOf == keyOf
    }

    constructor (h: Hashes)
      ensures Valid() && this.h == h && rows == map[] && requests == map[] && keyOf == map[]
      ensures world == World(map[], map[], map[], {}, map[], map[])
    {
      this.h := h;
      rows, requests, keyOf := map[], map[], map[];
      world := World(map[], map[], map[], {}, map[], map[]);
      EmptyKeeps(h);
    }

    /** The row of a booking, if it has one. */
    method FindRow(key: Key) returns (found: Option<RowId>)
      requires Unique(rows)
      ensures found == ByKey(rows, key)
    {
      var holders := set i | i in rows && rows[i].key == key;
      if holders == {} {
        assert forall i | HasKey(rows, key, i) :: i in holders;
        return None;
      }
      var i :| i in holders;
      assert HasKey(rows, key, i);
      return Some(i);
    }

    method WriteClaim(r: Request, now: Time, member: bool, legacy: bool, newId: RowId)
        returns (refused: Option<Error>, decision: Decision, found: Option<RowId>)
      requires Unique(rows)
      modifies this`rows
      ensures match Claim(old(rows), h, r, now, member, legacy, newId)
        case Refused(e) => refused == Some(e) && rows == old(rows)
        case Answer(d, i, rows') => refused.None? && decision == d && found == i && rows == rows'
    {
      refused, decision, found := None, Duplicate, None;
      if exists i | i in rows :: rows[i].eventKey == r.eventKey && rows[i].key != r.key {
        refused := Some(EventConflict);
        return;
      }
      found := FindRow(r.key);
      if member {
        decision := Member;
        return;
      }
      if r.phone == "" && r.channel.Whatsapp? {
        decision := PhoneMissing;
        return;
      }
      if found.Some? {
        var row := rows[found.value];
        if !Retryable(row, now) && !(row.state.Claimed? && row.eventKey == r.eventKey) { return; }
      }
      if Competing(rows, h, r.key, r.phone, r.email, r.customer, found, now) {
        found := None;
        return;
      }
      if legacy { return; }
      if found.Some? {
        var row := rows[found.value];
        if row.state.Claimed? && row.eventKey == r.eventKey && row.expiresAt > now {
          if row.phone != r.phone || row.email != r.email || row.language != r.language {
            refused := Some(PayloadConflict);
            return;
          }
          decision := Eligible;
          return;
        }
        row := Filled(row, h, r, now);
        row := row.(generation := row.generation + 1);
        rows := rows[found.value := row];
      } else {
        rows := rows[newId := NewRow(h, r, now)];
        found := Some(newId);
      }
      decision := Eligible;
    }

    method WriteConsume(i: RowId, phone: string, proof: Proof, now: Time, facts: Facts)
        returns (refused: Option<Error>, decision: Decision)
      requires i in rows
      modifies this`rows
      ensures match Consume(old(rows), h, i, phone, proof, now, facts)
        case ConsumeRefused(e) => refused == Some(e) && rows == old(rows)
        case Consumed(d, rows') => refused.None? && decision == d && rows == rows'
    {
      refused, decision := ProofError(rows, i, proof, now), Duplicate;
      if refused.Some? { return; }
      var row := rows[i];
      if row.phone != phone {
        refused := Some(PhoneChanged);
        return;
      }
      if facts.bookingUnknown {
        refused := Some(BookingUnknown);
        return;
      }
      if facts.member {
        if row.state.Claimed? {
          rows := rows[i := row.(state := Blocked)];
        }
        decision := Member;
        return;
      }
      if !row.state.Claimed? { return; }
      if row.origin.N8n? && facts.closed {
        rows := rows[i := row.(state := Blocked)];
        decision := Closed;
        return;
      }
      if row.expiresAt <= now {
        refused := Some(ClaimExpired);
        return;
      }
      if Competing(rows, h, row.key, row.phone, row.email, row.customer, Some(i), now) || facts.legacy {
        rows := rows[i := row.(state := Blocked)];
        return;
      }
      rows := rows[i := row.(state := Unknown, dispatchedAt := Some(now))];
      decision := Eligible;
    }

    method WriteOutcome(i: RowId, state: State, providerId: string) returns (refused: Option<Error>)
      requires i in rows
      modifies this`rows
      ensures refused == RecordError(old(rows)[i], state, providerId)
      ensures rows == if refused.Some? then old(rows) else old(rows)[i := Recorded(old(rows)[i], state, providerId)]
    {
      refused := RecordError(rows[i], state, providerId);
      if refused.Some? { return; }
      var row := rows[i];
      if state !in row.outcomes {
        row := row.(outcomes := row.outcomes + [state]);
      }
      if Rank(state) >= Rank(row.state) {
        row := row.(state := state);
      }
      if row.providerId == "" {
        row := row.(providerId := providerId);
      }
      rows := rows[i := row];
    }

    /** Saves a confirmed press once: pressing again changes nothing, and a saved request waits
        alone on a website row of its booking that was never dispatched. */
    method QueueRequest(b: BookingId, q: RequestId, target: Target, channel: Channel, now: Time, member: bool, old_: bool, newId: RowId)
      requires Valid() && b in keyOf && newId !in rows
      modifies this
      ensures Valid() && world == Queue(old(world), h, b, q, target, channel, now, member, old_, newId)
      ensures q in old(requests) ==> world == old(world)
      ensures b in old(world).keyOf
      ensures q !in old(requests) ==>
        (q in requests <==> InvitationLaws.Grantable(old(world), h, Press(old(world), b, q, target, channel), now, member, old_))
      ensures q in requests && q !in old(requests) ==>
        && requests[q].status.Queued? && Count(world.calls, q) == 0
        && requests[q].shared in rows && rows[requests[q].shared].origin.Website? && rows[requests[q].shared].dispatchedAt.None?
        && forall p | p in requests && p != q && requests[p].status.Queued? :: requests[p].shared != requests[q].shared
    {
      QueuePromise(world, h, b, q, target, channel, now, member, old_, newId);
      if q !in requests {
        InvitationLaws.QueueExactly(world, h, b, q, target, channel, now, member, old_, newId);
      }
      WriteRequest(b, q, target, channel, now, member, old_, newId);
    }

    method WriteRequest(b: BookingId, q: RequestId, target: Target, channel: Channel, now: Time, member: bool, old_: bool, newId: RowId)
      requires Mirrored() && Unique(rows) && b in keyOf && newId !in rows
      modifies this
      ensures Mirrored()
      ensures world == Queue(old(world), h, b, q, target, channel, now, member, old_, newId)
    {
      ghost var target_ := Queue(world, h, b, q, target, channel, now, member, old_, newId);
      if q in requests { return; }
      var legacy := LegacyShown(keyOf[b], target.phone, target.email, None, old_);
      var saved := rows;
      var refused, decision, shared := WriteClaim(
        Request(keyOf[b], target.phone, target.email, target.customer, target.language, EventKey(Website, q), Website, channel),
        now, member, legacy, newId);
      if refused.Some? || decision != Eligible || shared.None? {
        rows := saved;
        return;
      }
      requests := requests[q := NewRequest(h, b, channel, shared.value, target, now)];
      world := target_;
    }

    /** A stored request that shows an invitation in flight for this booking or contact. */
    predicate Owes(r: WebRequest, key: Key, phone: string, email: string)
      reads this
    {
      && InFlight(r.status)
      && (|| (r.booking in keyOf && keyOf[r.booking] == key)
          || (phone != "" && r.phoneDigest == Some(h.phone(phone)))
          || (email != "" && r.emailDigest == Some(h.email(email))))
    }

    /** Looks through the stored requests for an invitation in flight. */
    method LegacyShown(key: Key, phone: string, email: string, exclude: Option<RequestId>, old_: bool) returns (shown: bool)
      requires Mirrored()
      ensures shown == Legacy(world, h, key, phone, email, exclude, old_)
    {
      if old_ { return true; }
      var rest := requests.Keys;
      while rest != {}
        invariant rest <= requests.Keys
        invariant forall p | p in requests && p !in rest :: Some(p) == exclude || !Receipt(world, h, requests[p], key, phone, email)
      {
        var p :| p in rest;
        if Some(p) != exclude && Owes(requests[p], key, phone, email) {
          assert Receipt(world, h, requests[p], key, phone, email);
          return true;
        }
        rest := rest - {p};
      }
      return false;
    }

    /** Asks the registry for the permit of request q's own row. */
    method AskPermission(q: RequestId, phone: string, now: Time, facts: Facts) returns (granted: bool)
      requires Mirrored() && q in requests && requests[q].shared in rows
      modifies this`rows
      ensures match Permission(world, h, q, phone, now, facts)
        case ConsumeRefused(_) => !granted && rows == old(rows)
        case Consumed(decision, rows') => granted == (decision == Eligible) && rows == rows'
    {
      var i := requests[q].shared;
      var row := rows[i];
      var legacy := LegacyShown(row.key, row.phone, row.email, Some(q), facts.legacy);
      var refused, decision := WriteConsume(i, phone, NoProof, now, facts.(legacy := legacy));
      granted := refused.None? && decision == Eligible;
    }

    /** The delivery task up to the provider call. `send` says whether the call is made: then it
        is the request's only call ever, on the one permit of a row nobody else shares; a
        redelivered task never sends. */
    method DeliverRequest(q: RequestId, target: Target, ready: bool, now: Time, facts: Facts) returns (send: bool)
      requires Valid() && q in requests
      modifies this
      ensures Valid() && q in requests && !requests[q].status.Queued?
      ensures old(requests)[q].shared in old(rows) && world == Deliver(old(world), h, q, target, ready, now, facts)
      ensures send ==> SentOnce(old(world), world, q)
      ensures !send ==> world.calls == old(world).calls
      ensures q in old(world).requests && old(world).requests[q].shared in old(world).rows
      ensures send <==> InvitationLaws.Deliverable(old(world), h, q, target, ready, now, facts)
      ensures !old(requests)[q].status.Queued? ==> !send && world == old(world)
    {
      assert Sent(world, requests[q]);
      DeliverPromise(world, h, q, target, ready, now, facts);
      InvitationLaws.DeliverExactly(world, h, q, target, ready, now, facts);
      DeliverMoves(world, h, q, target, ready, now, facts);
      send := WriteDelivery(q, target, ready, now, facts);
    }

    method WriteDelivery(q: RequestId, target: Target, ready: bool, now: Time, facts: Facts) returns (send: bool)
      requires Mirrored() && q in requests && requests[q].shared in rows
      modifies this
      ensures Mirrored() && world == Deliver(old(world), h, q, target, ready, now, facts)
      ensures send <==> world.calls != old(world).calls
    {
      send := false;
      if !requests[q].status.Queued? { return; }
      ghost var next := Deliver(world, h, q, target, ready, now, facts);
      var status := Stopped;
      if !Outdated(requests[q], target, ready, now) {
        send := AskPermission(q, target.phone, now, facts);
        if send {
          status := Sending;
        }
      }
      requests := requests[q := requests[q].(status := status)];
      world := next;
    }

    /** Books the provider's answer with the shared row, or nothing when the row refuses it; an
        answer never grants another permit or call. */
    method FinishRequest(q: RequestId, accepted: bool, providerId: string)
      requires Valid() && q in requests
      modifies this
      ensures Valid() && old(requests)[q].shared in old(rows) && world == Finish(old(world), q, accepted, providerId)
      ensures DispatchesKept(old(rows), rows) && world.permits == old(world).permits && world.calls == old(world).calls
      ensures !old(requests)[q].status.Sending? ==> world == old(world)
      ensures world != old(world) ==>
        && q in requests && requests[q].status == (if accepted then WasAccepted else Uncertain)
        && requests[q].shared in rows && (if accepted then Accepted else Unknown) in rows[requests[q].shared].outcomes
    {
      assert Sent(world, requests[q]);
      FinishKeeps(world, h, q, accepted, providerId);
      FinishGrantsNothing(world, q, accepted, providerId);
      WriteAnswer(q, accepted, providerId);
    }

    method WriteAnswer(q: RequestId, accepted: bool, providerId: string)
      requires Mirrored() && q in requests && requests[q].shared in rows
      modifies this
      ensures Mirrored() && world == Finish(old(world), q, accepted, providerId)
      ensures q in requests && requests[q].shared == old(requests)[q].shared
    {
      ghost var target_ := Finish(world, q, accepted, providerId);
      if !requests[q].status.Sending? { return; }
      var refused := WriteOutcome(requests[q].shared, if accepted then Accepted else Unknown, if accepted then providerId else "");
      if refused.Some? { return; }
      requests := requests[q := requests[q].(status := if accepted then WasAccepted else Uncertain)];
      world := target_;
    }

    /** The task queue refused the request: no call was ever made for it, it is over, and its
        row may be claimed again at once. */
    method DispatchFailed(q: RequestId)
      requires Valid() && q in requests
      modifies this
      ensures Valid() && old(requests)[q].shared in old(rows) && world == DispatchFails(old(world), q)
      ensures world.permits == old(world).permits && world.calls == old(world).calls
      ensures q in requests && !requests[q].status.Queued? && (!old(requests)[q].status.Queued? ==> world == old(world))
      ensures old(requests)[q].status.Queued? ==>
        && requests == old(requests)[q := old(requests)[q].(status := QueueRefused)]
        && old(requests)[q].shared in rows && rows[old(requests)[q].shared].state == QueueFailed
      ensures world != old(world) ==>
        var i := old(requests)[q].shared;
        Count(world.calls, q) == 0 && i in rows && rows[i].dispatchedAt.None? && forall now :: Retryable(rows[i], now)
    {
      assert Sent(world, requests[q]);
      DispatchFailsPromise(world, h, q);
      InvitationLaws.DispatchFailsExactly(world, h, q);
      DispatchFailsMoves(world, q);
      WriteQueueFailure(q);
    }

    method WriteQueueFailure(q: RequestId)
      requires Mirrored() && q in requests && requests[q].shared in rows
      modifies this
      ensures Mirrored() && world == DispatchFails(old(world), q)
    {
      ghost var target_ := DispatchFails(world, q);
      if !requests[q].status.Queued? { return; }
      var refused := WriteOutcome(requests[q].shared, QueueFailed, "");
      if refused.Some? { return; }
      requests := requests[q := requests[q].(status := QueueRefused)];
      world := target_;
    }

    // ----- The automation's endpoints -----

    /** The automation asks for an invitation of a booking. An eligible answer opens a row that was
        never dispatched, for exactly this booking and these contacts, on which no website request
        waits; any other answer changes nothing. */
    method ClaimEndpoint(key: Key, target: Target, reference: string, now: Time, closed: bool, member: bool, old_: bool, newId: RowId)
        returns (refused: Option<Error>, decision: Decision, found: Option<RowId>)
      requires Valid() && key !in world.retired && newId !in rows
      modifies this
      ensures Valid() && world == AutoClaim(old(world), h, key, target, reference, now, closed, member, old_, newId)
      ensures refused.None? && decision == Eligible ==>
        !closed && !member && found.Some? && AutoClaimed(old(world), world, h, Asked(key, target, reference), found.value)
      ensures refused.Some? || decision != Eligible ==> world == old(world)
      ensures refused.None? && decision == Eligible <==>
        !closed && InvitationLaws.Grantable(old(world), h, Asked(key, target, reference), now, member, old_)
    {
      InvitationLaws.AutoClaimExactly(world, h, key, target, reference, now, member, old_, newId);
      AutoClaimKeeps(world, h, key, target, reference, now, closed, member, old_, newId);
      AutoClaimPromise(world, h, key, target, reference, now, closed, member, old_, newId);
      refused, decision, found := AnswerClaim(key, target, reference, now, closed, member, old_, newId);
    }

    method AnswerClaim(key: Key, target: Target, reference: string, now: Time, closed: bool, member: bool, old_: bool, newId: RowId)
        returns (refused: Option<Error>, decision: Decision, found: Option<RowId>)
      requires Mirrored() && Unique(rows)
      modifies this
      ensures Mirrored() && world == AutoClaim(old(world), h, key, target, reference, now, closed, member, old_, newId)
      ensures var claim := AutoAnswer(old(world), h, key, target, reference, now, member, old_, newId);
        && (refused.None? && decision == Eligible <==> !closed && Eligibly(claim))
        && (refused.None? && decision == Eligible ==> found == claim.row)
    {
      if closed { return None, Closed, None; }
      ghost var next := AutoClaim(world, h, key, target, reference, now, closed, member, old_, newId);
      var legacy := LegacyShown(key, target.phone, target.email, None, old_);
      refused, decision, found := WriteClaim(Asked(key, target, reference), now, member, legacy, newId);
      world := next;
    }

    /** The automation asks for the permit of a row it claimed. A grant is the row's only one ever,
        on a young ticket of its present generation, and the row shares nothing with any dispatched
        one; without a grant nothing is dispatched. Rows of the website are not found. */
    method PreflightEndpoint(i: RowId, phone: string, proof: Proof, now: Time, facts: Facts)
        returns (refused: Option<Error>, decision: Decision)
      requires Valid() && !proof.NoProof?
      modifies this
      ensures Valid() && world == old(world).(rows := world.rows, permits := world.permits)
      ensures refused == Some(NotFound) <==> i !in old(rows) || old(rows)[i].origin.Website?
      ensures refused == Some(NotFound) ==> world == old(world)
      ensures refused != Some(NotFound) ==> i in old(world).rows && world == Preflight(old(world), h, i, phone, proof, now, facts)
      ensures if refused.None? && decision == Eligible then PermittedOnce(old(world), world, i, phone, proof, now)
              else NothingDispatched(old(world), world)
      ensures refused.None? && decision == Eligible <==>
        i in old(world).rows && InvitationLaws.Permissible(old(world), h, i, phone, proof, now, facts)
    {
      if i !in rows || rows[i].origin.Website? { return Some(NotFound), Duplicate; }
      InvitationLaws.PreflightExactly(world, h, i, phone, proof, now, facts);
      PreflightKeeps(world, h, i, phone, proof, now, facts);
      PreflightMoves(world, h, i, phone, proof, now, facts);
      PreflightPromise(world, h, i, phone, proof, now, facts);
      refused, decision := AnswerPreflight(i, phone, proof, now, facts);
    }

    method AnswerPreflight(i: RowId, phone: string, proof: Proof, now: Time, facts: Facts)
        returns (refused: Option<Error>, decision: Decision)
      requires Mirrored() && i in rows && rows[i].origin.N8n? && !proof.NoProof?
      modifies this
      ensures Mirrored() && world == Preflight(old(world), h, i, phone, proof, now, facts)
      ensures refused.None? && decision == Eligible <==> Granted(Preflighted(old(world), h, i, phone, proof, now, facts))
      ensures refused != Some(NotFound)
    {
      ghost var next := Preflight(world, h, i, phone, proof, now, facts);
      PreflightMoves(world, h, i, phone, proof, now, facts);
      var legacy := LegacyShown(rows[i].key, rows[i].phone, rows[i].email, None, facts.legacy);
      refused, decision := WriteConsume(i, phone, proof, now, facts.(legacy := legacy));
      world := next;
    }

    /** The automation reports an outcome. Only its own dispatched rows take one, and never one that
        would free the row for another permit. */
    method RecordEndpoint(i: RowId, state: State, providerId: string) returns (refused: Option<Error>)
      requires Valid()
      modifies this
      ensures Valid() && (i in old(world).rows ==> world == AutoRecord(old(world), i, state, providerId))
      ensures refused.None? <==> i in old(rows) && InvitationLaws.OwnOutcome(old(rows)[i], state, providerId)
      ensures refused.None? ==> Reported(old(world), world, i, state, providerId)
      ensures refused.Some? ==> world == old(world)
    {
      if !Reportable(state) { return Some(InvalidStatus); }
      if i !in rows || rows[i].origin.Website? { return Some(NotFound); }
      AutoRecordKeeps(world, h, i, state, providerId);
      AutoRecordMoves(world, i, state, providerId);
      InvitationLaws.TakenExactly(rows[i], state, providerId);
      refused := TakeReport(i, state, providerId);
    }

    method TakeReport(i: RowId, state: State, providerId: string) returns (refused: Option<Error>)
      requires Mirrored() && i in rows && rows[i].origin.N8n? && Reportable(state)
      modifies this
      ensures Mirrored() && world == AutoRecord(old(world), i, state, providerId)
      ensures refused.None? <==> Taken(old(rows)[i], state, providerId)
    {
      ghost var next := AutoRecord(world, i, state, providerId);
      refused := WriteOutcome(i, state, providerId);
      world := next;
    }
  }
}
