/** The two senders of invitations, the website's own requests and the automation's claims,
    sharing one registry in any interleaving. */
module BookingInvitations {
  import opened Wrappers
  import opened InvitationRegistry

  type BookingId = nat
  type RequestId = string

  datatype Status = Queued | Sending | WasAccepted | Uncertain | QueueRefused | Stopped

  predicate InFlight(s: Status) { s.Queued? || s.Sending? || s.WasAccepted? || s.Uncertain? }

  datatype Target = Target(phone: string, email: string, customer: Option<Customer>, language: string)

  /** One confirmed press of the owner's send button. */
  datatype WebRequest = WebRequest(
    booking: BookingId, channel: Channel, status: Status, shared: RowId, target: Target,
    phoneDigest: Option<string>, emailDigest: Option<string>, requestedAt: Time)

  datatype World = World(
    rows: Rows,
    requests: map<RequestId, WebRequest>,
    keyOf: map<BookingId, Key>,
    retired: set<Key>,
    permits: map<RowId, nat>,
    calls: map<RequestId, nat>)

  function Count<T(==)>(m: map<T, nat>, x: T): nat { if x in m then m[x] else 0 }

  /** Another request shows an invitation in flight for this booking or this contact; `old`
      answers for receipts written before requests were kept one by one. */
  predicate Legacy(w: World, h: Hashes, key: Key, phone: string, email: string, exclude: Option<RequestId>, old_: bool)
  {
    old_ || exists q | q in w.requests ::
      Some(q) != exclude && Receipt(w, h, w.requests[q], key, phone, email)
  }

  predicate Receipt(w: World, h: Hashes, r: WebRequest, key: Key, phone: string, email: string)
  {
    && InFlight(r.status)
    && (|| (r.booking in w.keyOf && w.keyOf[r.booking] == key)
        || (phone != "" && r.phoneDigest == Some(h.phone(phone)))
        || (email != "" && r.emailDigest == Some(h.email(email))))
  }

  // ----- The website -----

  /** What a website press asks of the registry. */
  function Press(w: World, b: BookingId, q: RequestId, target: Target, channel: Channel): Request
    requires b in w.keyOf
  {
    Request(w.keyOf[b], target.phone, target.email, target.customer, target.language, EventKey(Website, q), Website, channel)
  }

  /** Saves a confirmed request once, if the registry lets it claim the booking. */
  ghost function Queue(w: World, h: Hashes, b: BookingId, q: RequestId, target: Target, channel: Channel,
                       now: Time, member: bool, old_: bool, newId: RowId): World
    requires b in w.keyOf
  {
    if q in w.requests then w
    else
      var claim := Claim(w.rows, h,
        Press(w, b, q, target, channel),
        now, member, Legacy(w, h, w.keyOf[b], target.phone, target.email, None, old_), newId);
      if claim.Refused? || claim.decision != Eligible || claim.row.None? then w
      else w.(rows := claim.rows, requests := w.requests[q := NewRequest(h, b, channel, claim.row.value, target, now)])
  }

  function NewRequest(h: Hashes, b: BookingId, channel: Channel, shared: RowId, target: Target, now: Time): WebRequest
  {
    WebRequest(b, channel, Queued, shared, target,
               if channel.Whatsapp? then Some(h.phone(target.phone)) else None,
               if channel.Email? then Some(h.email(target.email)) else None, now)
  }

  predicate SameTarget(a: Target, b: Target, channel: Channel)
  {
    a.phone == b.phone && a.language == b.language && (channel.Email? ==> a.email == b.email)
  }

  function WithStatus(w: World, q: RequestId, status: Status): World
    requires q in w.requests
  {
    w.(requests := w.requests[q := w.requests[q].(status := status)])
  }

  /** The permit is spent on one provider call. */
  function SentWorld(w: World, q: RequestId, rows: Rows): World
    requires q in w.requests
  {
    var i := w.requests[q].shared;
    WithStatus(w, q, Sending).(
      rows := rows, permits := w.permits[i := Count(w.permits, i) + 1], calls := w.calls[q := Count(w.calls, q) + 1])
  }

  /** What the registry answers to a website delivery of request q. */
  function Permission(w: World, h: Hashes, q: RequestId, phone: string, now: Time, facts: Facts): ConsumeResult
    requires q in w.requests && w.requests[q].shared in w.rows
  {
    var i := w.requests[q].shared;
    var legacy := Legacy(w, h, w.rows[i].key, w.rows[i].phone, w.rows[i].email, Some(q), facts.legacy);
    Consume(w.rows, h, i, phone, NoProof, now, facts.(legacy := legacy))
  }

  predicate Outdated(r: WebRequest, target: Target, ready: bool, now: Time)
  {
    !ready || !SameTarget(r.target, target, r.channel) || now - r.requestedAt > 900
  }

  /** The delivery task: one provider call at most, and only after the shared row granted a permit. */
  function Deliver(w: World, h: Hashes, q: RequestId, target: Target, ready: bool, now: Time, facts: Facts): World
    requires q in w.requests && w.requests[q].shared in w.rows
  {
    if !w.requests[q].status.Queued? then w
    else if Outdated(w.requests[q], target, ready, now) then WithStatus(w, q, Stopped)
    else AfterPermission(w, q, Permission(w, h, q, target.phone, now, facts))
  }

  function AfterPermission(w: World, q: RequestId, result: ConsumeResult): World
    requires q in w.requests && w.requests[q].shared in w.rows
  {
    match result
    case ConsumeRefused(_) => WithStatus(w, q, Stopped)
    case Consumed(decision, rows) =>
      if decision == Eligible then SentWorld(w, q, rows) else WithStatus(w, q, Stopped).(rows := rows)
  }

  /** Books a new status together with the shared row's outcome, or neither. */
  function Book(w: World, q: RequestId, status: Status, state: State, providerId: string): World
    requires q in w.requests && w.requests[q].shared in w.rows
  {
    var i := w.requests[q].shared;
    if RecordError(w.rows[i], state, providerId).Some? then w
    else WithStatus(w, q, status).(rows := w.rows[i := Recorded(w.rows[i], state, providerId)])
  }

  function Finish(w: World, q: RequestId, accepted: bool, providerId: string): World
    requires q in w.requests && w.requests[q].shared in w.rows
  {
    if !w.requests[q].status.Sending? then w
    else if accepted then Book(w, q, WasAccepted, Accepted, providerId)
    else Book(w, q, Uncertain, Unknown, "")
  }

  function DispatchFails(w: World, q: RequestId): World
    requires q in w.requests && w.requests[q].shared in w.rows
  {
    if !w.requests[q].status.Queued? then w else Book(w, q, QueueRefused, QueueFailed, "")
  }

  // ----- The automation -----

  /** The automation's request for a booking, under its own reference. */
  function Asked(key: Key, target: Target, reference: string): Request
  {
    Request(key, target.phone, target.email, target.customer, target.language, EventKey(N8n, reference), N8n, Whatsapp)
  }

  ghost function AutoClaim(w: World, h: Hashes, key: Key, target: Target, reference: string,
                           now: Time, closed: bool, member: bool, old_: bool, newId: RowId): World
  {
    if closed then w
    else
      var claim := Claim(w.rows, h,
        Asked(key, target, reference),
        now, member, Legacy(w, h, key, target.phone, target.email, None, old_), newId);
      if claim.Refused? then w else w.(rows := claim.rows)
  }

  /** What the registry answers to the automation. */
  function Preflighted(w: World, h: Hashes, i: RowId, phone: string, proof: Proof, now: Time, facts: Facts): ConsumeResult
    requires i in w.rows
  {
    var legacy := Legacy(w, h, w.rows[i].key, w.rows[i].phone, w.rows[i].email, None, facts.legacy);
    Consume(w.rows, h, i, phone, proof, now, facts.(legacy := legacy))
  }

  function Preflight(w: World, h: Hashes, i: RowId, phone: string, proof: Proof, now: Time, facts: Facts): World
    requires i in w.rows
  {
    if !w.rows[i].origin.N8n? || proof.NoProof? then w
    else AfterConsume(w, i, Preflighted(w, h, i, phone, proof, now, facts))
  }

  function AfterConsume(w: World, i: RowId, result: ConsumeResult): World
  {
    match result
    case ConsumeRefused(_) => w
    case Consumed(decision, rows) =>
      if decision == Eligible then w.(rows := rows, permits := w.permits[i := Count(w.permits, i) + 1])
      else w.(rows := rows)
  }

  predicate Reportable(state: State) { state.Accepted? || state.Unknown? || state.Delivered? || state.Read? || state.Failed? }

  function AutoRecord(w: World, i: RowId, state: State, providerId: string): World
    requires i in w.rows
  {
    if !Reportable(state) || !w.rows[i].origin.N8n? || RecordError(w.rows[i], state, providerId).Some? then w
    else w.(rows := w.rows[i := Recorded(w.rows[i], state, providerId)])
  }

  // ----- Runs -----

  datatype Step =
    | QueueStep(booking: BookingId, request: RequestId, target: Target, channel: Channel, now: Time, member: bool, old_: bool, newId: RowId)
    | DeliverStep(request: RequestId, target: Target, ready: bool, now: Time, facts: Facts)
    | FinishStep(request: RequestId, accepted: bool, providerId: string)
    | DispatchFailsStep(request: RequestId)
    | AutoClaimStep(key: Key, target: Target, reference: string, now: Time, closed: bool, member: bool, old_: bool, newId: RowId)
    | PreflightStep(row: RowId, phone: string, proof: Proof, now: Time, facts: Facts)
    | AutoRecordStep(row: RowId, state: State, providerId: string)
    | RekeyStep(booking: BookingId, key: Key)

  /** New rows are new; a retired booking key is never asked for again; a booking may receive a new key. */
  ghost predicate Enabled(w: World, step: Step)
  {
    match step
    case QueueStep(b, _, _, _, _, _, _, newId) => b in w.keyOf && newId !in w.rows
    case DeliverStep(q, _, _, _, _) => q in w.requests && w.requests[q].shared in w.rows
    case FinishStep(q, _, _) => q in w.requests && w.requests[q].shared in w.rows
    case DispatchFailsStep(q) => q in w.requests && w.requests[q].shared in w.rows
    case AutoClaimStep(key, _, _, _, _, _, _, newId) => key !in w.retired && newId !in w.rows
    case PreflightStep(i, _, _, _, _) => i in w.rows
    case AutoRecordStep(i, _, _) => i in w.rows
    case RekeyStep(b, key) => key !in w.retired && key !in w.keyOf.Values
  }

  ghost function Apply(w: World, h: Hashes, step: Step): World
    requires Enabled(w, step)
  {
    match step
    case QueueStep(b, q, target, channel, now, member, old_, newId) => Queue(w, h, b, q, target, channel, now, member, old_, newId)
    case DeliverStep(q, target, ready, now, facts) => Deliver(w, h, q, target, ready, now, facts)
    case FinishStep(q, accepted, providerId) => Finish(w, q, accepted, providerId)
    case DispatchFailsStep(q) => DispatchFails(w, q)
    case AutoClaimStep(key, target, reference, now, closed, member, old_, newId) =>
      AutoClaim(w, h, key, target, reference, now, closed, member, old_, newId)
    case PreflightStep(i, phone, proof, now, facts) => Preflight(w, h, i, phone, proof, now, facts)
    case AutoRecordStep(i, state, providerId) => AutoRecord(w, i, state, providerId)
    case RekeyStep(b, key) =>
      w.(keyOf := w.keyOf[b := key], retired := if b in w.keyOf then w.retired + {w.keyOf[b]} else w.retired)
  }

  ghost predicate Run(states: seq<World>, steps: seq<Step>, h: Hashes)
  {
    && |states| == |steps| + 1
    && states[0] == World(map[], map[], map[], {}, map[], map[])
    && forall j | 0 <= j < |steps| :: Enabled(states[j], steps[j]) && states[j + 1] == Apply(states[j], h, steps[j])
  }

  // ----- Invariant -----

  /** A request still in the queue owns an unused website claim on its booking. */
  ghost predicate Waiting(w: World, r: WebRequest)
  {
    r.status.Queued? ==>
      && r.shared in w.rows
      && w.rows[r.shared].origin.Website? && w.rows[r.shared].dispatchedAt.None?
      && r.booking in w.keyOf
      && (w.keyOf[r.booking] == w.rows[r.shared].key || w.rows[r.shared].key in w.retired)
  }

  function CallsFor(s: Status): nat
  {
    if s.Sending? || s.WasAccepted? || s.Uncertain? then 1 else 0
  }

  ghost predicate Invariant(w: World, h: Hashes)
  {
    && Safe(w.rows, h)
    && PermitsFit(w.rows, w.permits)
    && RequestsFit(w)
    && KeysFit(w)
  }

  /** Booking keys in use are not retired, and no two bookings share one. */
  ghost predicate KeysFit(w: World)
  {
    && (forall b | b in w.keyOf :: w.keyOf[b] !in w.retired)
    && (forall a, b | a in w.keyOf && b in w.keyOf && w.keyOf[a] == w.keyOf[b] :: a == b)
  }

  /** A request that was sent holds a dispatched row. */
  ghost predicate Sent(w: World, r: WebRequest)
  {
    r.shared in w.rows && (CallsFor(r.status) == 1 ==> w.rows[r.shared].dispatchedAt.Some?)
  }

  type Requests = map<RequestId, WebRequest>

  ghost predicate RequestsFit(w: World)
  {
    && (forall q {:trigger Waiting(w, w.requests[q])} | q in w.requests :: Waiting(w, w.requests[q]))
    && (forall q {:trigger Sent(w, w.requests[q])} | q in w.requests :: Sent(w, w.requests[q]))
    && CallsFit(w.requests, w.calls) && QueuedApart(w.requests)
  }

  /** A request has called the provider exactly once if it was sent, and otherwise never. */
  ghost predicate CallsFit(requests: Requests, calls: map<RequestId, nat>)
  {
    && (forall q | q in requests :: Count(calls, q) == CallsFor(requests[q].status))
    && (forall q | q in calls :: q in requests)
  }

  /** No two waiting requests share a row. */
  ghost predicate QueuedApart(requests: Requests)
  {
    forall p, q | p in requests && q in requests && p != q && requests[p].status.Queued? && requests[q].status.Queued? ::
      requests[p].shared != requests[q].shared
  }

  lemma MovedRequestFits(requests: Requests, calls: map<RequestId, nat>, q: RequestId, status: Status, calls': map<RequestId, nat>)
    requires CallsFit(requests, calls) && QueuedApart(requests) && q in requests && !status.Queued?
    requires calls' == calls || calls' == calls[q := Count(calls, q) + 1]
    requires Count(calls', q) == CallsFor(status)
    ensures var moved := requests[q := requests[q].(status := status)]; CallsFit(moved, calls') && QueuedApart(moved)
  {
  }

  /** Permits are counted on the rows that were dispatched, one each. */
  ghost predicate PermitsFit(rows: Rows, permits: map<RowId, nat>)
  {
    && (forall i | i in rows :: Count(permits, i) == if rows[i].dispatchedAt.Some? then 1 else 0)
    && (forall i | i in permits :: i in rows)
  }

  // ----- Each step keeps the invariant -----

  /** Only row i changed, and it keeps its dispatch; no waiting request claims it. */
  ghost predicate RowStep(w: World, w': World, i: RowId)
  {
    && i in w'.rows && w' == w.(rows := w.rows[i := w'.rows[i]], permits := w'.permits)
    && (i in w.rows ==> SameDispatch(w.rows[i], w'.rows[i]))
    && forall q | q in w.requests && w.requests[q].status.Queued? :: w.requests[q].shared != i
  }

  lemma RowStepFits(w: World, w': World, i: RowId)
    requires RequestsFit(w) && RowStep(w, w', i)
    ensures RequestsFit(w')
  {
    forall q | q in w'.requests
      ensures Waiting(w', w'.requests[q]) && Sent(w', w'.requests[q])
    {
      assert Waiting(w, w.requests[q]) && Sent(w, w.requests[q]);
    }
  }

  /** Request q moved on with its own row; it never returns to the queue. */
  ghost predicate RequestStep(w: World, w': World, q: RequestId)
  {
    && q in w.requests && q in w'.requests && w.requests[q].shared in w.rows
    && var r, i := w.requests[q], w.requests[q].shared;
       && i in w'.rows
       && w' == w.(requests := w.requests[q := r.(status := w'.requests[q].status)],
                   rows := w.rows[i := w'.rows[i]], permits := w'.permits, calls := w'.calls)
       && (r.status.Queued? || r.status.Sending?) && !w'.requests[q].status.Queued?
       && SameDispatch(w.rows[i], w'.rows[i])
       && (CallsFor(w'.requests[q].status) == 1 ==> w'.rows[i].dispatchedAt.Some?)
       && (w'.calls == w.calls || w'.calls == w.calls[q := Count(w.calls, q) + 1])
       && Count(w'.calls, q) == CallsFor(w'.requests[q].status)
  }

  lemma RequestStepFits(w: World, w': World, q: RequestId)
    requires RequestsFit(w) && RequestStep(w, w', q)
    ensures RequestsFit(w')
  {
    MovedRequestFits(w.requests, w.calls, q, w'.requests[q].status, w'.calls);
    var r, i := w.requests[q], w.requests[q].shared;
    assert Waiting(w, r) && Sent(w, r);
    forall p | p in w'.requests
      ensures Waiting(w', w'.requests[p]) && Sent(w', w'.requests[p])
    {
      assert Waiting(w, w.requests[p]) && Sent(w, w.requests[p]);
    }
  }

  lemma NoWaitingOn(w: World, h: Hashes, key: Key, phone: string, email: string, exclude: Option<RequestId>, old_: bool, i: RowId)
    requires RequestsFit(w) && !Legacy(w, h, key, phone, email, exclude, old_)
    requires key !in w.retired && (i in w.rows ==> w.rows[i].key == key)
    ensures forall q | q in w.requests && w.requests[q].status.Queued? && Some(q) != exclude :: w.requests[q].shared != i
  {
    forall q | q in w.requests && w.requests[q].status.Queued? && Some(q) != exclude
      ensures w.requests[q].shared != i
    {
      assert Waiting(w, w.requests[q]);
      assert !Receipt(w, h, w.requests[q], key, phone, email);
    }
  }

  lemma ClaimNeedsNoReceipt(rows: Rows, h: Hashes, r: Request, now: Time, member: bool, legacy: bool, newId: RowId)
    ensures match Claim(rows, h, r, now, member, legacy, newId)
      case Answer(Eligible, _, _) => !legacy
      case _ => true
  {
  }

  lemma OpenedRowPermits(rows: Rows, rows': Rows, permits: map<RowId, nat>, h: Hashes, r: Request, i: RowId)
    requires PermitsFit(rows, permits) && ClaimOpened(rows, rows', h, r, i)
    ensures PermitsFit(rows', permits)
  {
  }

  lemma AutoClaimKeeps(w: World, h: Hashes, key: Key, target: Target, reference: string,
                       now: Time, closed: bool, member: bool, old_: bool, newId: RowId)
    requires Invariant(w, h) && key !in w.retired && newId !in w.rows
    ensures Invariant(AutoClaim(w, h, key, target, reference, now, closed, member, old_, newId), h)
    ensures DispatchesKept(w.rows, AutoClaim(w, h, key, target, reference, now, closed, member, old_, newId).rows)
  {
    var w' := AutoClaim(w, h, key, target, reference, now, closed, member, old_, newId);
    if w' != w {
      var r := Asked(key, target, reference);
      var legacy := Legacy(w, h, key, target.phone, target.email, None, old_);
      ClaimKeepsSafe(w.rows, h, r, now, member, legacy, newId);
      ClaimOpens(w.rows, h, r, now, member, legacy, newId);
      ClaimNeedsNoReceipt(w.rows, h, r, now, member, legacy, newId);
      var i := Claim(w.rows, h, r, now, member, legacy, newId).row.value;
      NoWaitingOn(w, h, key, target.phone, target.email, None, old_, i);
      OpenedRowPermits(w.rows, w'.rows, w.permits, h, r, i);
      RowStepFits(w, w', i);
    }
  }

  ghost function Pressed(w: World, h: Hashes, b: BookingId, q: RequestId, target: Target, channel: Channel,
                         now: Time, member: bool, old_: bool, newId: RowId): ClaimResult
    requires b in w.keyOf
  {
    Claim(w.rows, h, Press(w, b, q, target, channel), now, member,
          Legacy(w, h, w.keyOf[b], target.phone, target.email, None, old_), newId)
  }

  lemma QueueKeepsRows(w: World, h: Hashes, b: BookingId, q: RequestId, target: Target, channel: Channel,
                       now: Time, member: bool, old_: bool, newId: RowId)
    requires Safe(w.rows, h) && PermitsFit(w.rows, w.permits) && b in w.keyOf && newId !in w.rows
    ensures var w' := Queue(w, h, b, q, target, channel, now, member, old_, newId);
      Safe(w'.rows, h) && PermitsFit(w'.rows, w'.permits) && DispatchesKept(w.rows, w'.rows)
  {
    var r, claim := Press(w, b, q, target, channel), Pressed(w, h, b, q, target, channel, now, member, old_, newId);
    var legacy := Legacy(w, h, w.keyOf[b], target.phone, target.email, None, old_);
    ClaimKeepsSafe(w.rows, h, r, now, member, legacy, newId);
    ClaimOpens(w.rows, h, r, now, member, legacy, newId);
    if claim.Answer? && claim.decision == Eligible {
      OpenedRowPermits(w.rows, claim.rows, w.permits, h, r, claim.row.value);
    }
    QueueWrites(w, h, b, q, target, channel, now, member, old_, newId);
    var rows := Queue(w, h, b, q, target, channel, now, member, old_, newId).rows;
    assert Safe(rows, h);
  }

  lemma QueueWrites(w: World, h: Hashes, b: BookingId, q: RequestId, target: Target, channel: Channel,
                    now: Time, member: bool, old_: bool, newId: RowId)
    requires b in w.keyOf
    ensures var (w', claim) := (Queue(w, h, b, q, target, channel, now, member, old_, newId), Pressed(w, h, b, q, target, channel, now, member, old_, newId));
      w'.permits == w.permits && (w'.rows == w.rows || (claim.Answer? && claim.decision == Eligible && w'.rows == claim.rows))
  {
  }

  lemma QueueKeepsRequests(w: World, h: Hashes, b: BookingId, q: RequestId, target: Target, channel: Channel,
                           now: Time, member: bool, old_: bool, newId: RowId)
    requires Safe(w.rows, h) && RequestsFit(w) && KeysFit(w) && b in w.keyOf && newId !in w.rows
    ensures RequestsFit(Queue(w, h, b, q, target, channel, now, member, old_, newId))
  {
    var r, claim := Press(w, b, q, target, channel), Pressed(w, h, b, q, target, channel, now, member, old_, newId);
    var legacy := Legacy(w, h, w.keyOf[b], target.phone, target.email, None, old_);
    if q !in w.requests && claim.Answer? && claim.decision == Eligible {
      ClaimOpens(w.rows, h, r, now, member, legacy, newId);
      ClaimNeedsNoReceipt(w.rows, h, r, now, member, legacy, newId);
      NoWaitingOn(w, h, w.keyOf[b], target.phone, target.email, None, old_, claim.row.value);
      QueuedFits(w, h, b, q, target, channel, now, claim.rows, claim.row.value, r);
    }
  }

  lemma QueueKeeps(w: World, h: Hashes, b: BookingId, q: RequestId, target: Target, channel: Channel,
                   now: Time, member: bool, old_: bool, newId: RowId)
    requires Invariant(w, h) && b in w.keyOf && newId !in w.rows
    ensures Invariant(Queue(w, h, b, q, target, channel, now, member, old_, newId), h)
    ensures DispatchesKept(w.rows, Queue(w, h, b, q, target, channel, now, member, old_, newId).rows)
  {
    QueueKeepsRows(w, h, b, q, target, channel, now, member, old_, newId);
    QueueKeepsRequests(w, h, b, q, target, channel, now, member, old_, newId);
  }

  /** Saving a request on a row just opened for its booking. */
  lemma QueuedFits(w: World, h: Hashes, b: BookingId, q: RequestId, target: Target, channel: Channel, now: Time,
                   rows: Rows, i: RowId, r: Request)
    requires RequestsFit(w) && KeysFit(w) && q !in w.requests && b in w.keyOf
    requires ClaimOpened(w.rows, rows, h, r, i) && r.key == w.keyOf[b] && r.origin.Website?
    requires forall p | p in w.requests && w.requests[p].status.Queued? :: w.requests[p].shared != i
    ensures RequestsFit(w.(rows := rows, requests := w.requests[q := NewRequest(h, b, channel, i, target, now)]))
  {
    var middle := w.(rows := rows);
    RowStepFits(w, middle, i);
    NewRequestFits(middle, w.(rows := rows, requests := w.requests[q := NewRequest(h, b, channel, i, target, now)]), q);
  }

  /** A new request that waits on a row nobody else waits on. */
  lemma NewRequestFits(w: World, w': World, q: RequestId)
    requires RequestsFit(w) && q !in w.requests && q in w'.requests
    requires w' == w.(requests := w.requests[q := w'.requests[q]])
    requires w'.requests[q].status.Queued? && Waiting(w', w'.requests[q])
    requires forall p | p in w.requests && w.requests[p].status.Queued? :: w.requests[p].shared != w'.requests[q].shared
    ensures RequestsFit(w')
  {
    forall p | p in w'.requests
      ensures Waiting(w', w'.requests[p]) && Sent(w', w'.requests[p])
    {
      if p != q {
        assert Waiting(w, w.requests[p]) && Sent(w, w.requests[p]);
      }
    }
  }

  lemma PermitGranted(rows: Rows, rows': Rows, permits: map<RowId, nat>, i: RowId, decision: Decision)
    requires PermitsFit(rows, permits) && i in rows && ConsumedOne(rows, rows', i, decision)
    ensures PermitsFit(rows', if decision == Eligible then permits[i := Count(permits, i) + 1] else permits)
  {
  }

  lemma RowStepKeeps(w: World, w': World, h: Hashes, i: RowId)
    requires Invariant(w, h) && RowStep(w, w', i)
    requires Safe(w'.rows, h) && PermitsFit(w'.rows, w'.permits)
    ensures Invariant(w', h)
  {
    RowStepFits(w, w', i);
  }

  lemma RequestStepKeeps(w: World, w': World, h: Hashes, q: RequestId)
    requires Invariant(w, h) && RequestStep(w, w', q)
    requires Safe(w'.rows, h) && PermitsFit(w'.rows, w'.permits)
    ensures Invariant(w', h)
  {
    RequestStepFits(w, w', q);
  }

  /** What a consume does, granted or not: one row moves on and its permit is counted. */
  ghost predicate ConsumeStep(rows: Rows, rows': Rows, permits: map<RowId, nat>, h: Hashes, i: RowId, decision: Decision)
  {
    && i in rows && i in rows' && rows' == rows[i := rows'[i]] && SameDispatch(rows[i], rows'[i])
    && Safe(rows', h) && DispatchesKept(rows, rows')
    && PermitsFit(rows', if decision == Eligible then permits[i := Count(permits, i) + 1] else permits)
    && (decision == Eligible ==> rows'[i].dispatchedAt.Some?)
  }

  lemma ConsumeSteps(rows: Rows, permits: map<RowId, nat>, h: Hashes, i: RowId, phone: string, proof: Proof, now: Time, facts: Facts)
    requires Safe(rows, h) && PermitsFit(rows, permits) && i in rows
    ensures match Consume(rows, h, i, phone, proof, now, facts)
      case Consumed(decision, rows') => ConsumeStep(rows, rows', permits, h, i, decision)
      case ConsumeRefused(_) => true
  {
    ConsumeKeepsSafe(rows, h, i, phone, proof, now, facts);
    var result := Consume(rows, h, i, phone, proof, now, facts);
    if result.Consumed? {
      PermitGranted(rows, result.rows, permits, i, result.decision);
    }
  }

  ghost predicate InQueue(w: World, q: RequestId)
  {
    q in w.requests && w.requests[q].shared in w.rows && w.requests[q].status.Queued? && Count(w.calls, q) == 0
  }

  lemma StoppingSteps(w: World, q: RequestId, rows: Rows)
    requires InQueue(w, q)
    requires w.requests[q].shared in rows && rows == w.rows[w.requests[q].shared := rows[w.requests[q].shared]]
    requires SameDispatch(w.rows[w.requests[q].shared], rows[w.requests[q].shared])
    ensures RequestStep(w, WithStatus(w, q, Stopped).(rows := rows), q)
  {
  }

  lemma SendingSteps(w: World, q: RequestId, rows: Rows)
    requires InQueue(w, q)
    requires w.requests[q].shared in rows && rows == w.rows[w.requests[q].shared := rows[w.requests[q].shared]]
    requires SameDispatch(w.rows[w.requests[q].shared], rows[w.requests[q].shared])
    requires rows[w.requests[q].shared].dispatchedAt.Some?
    ensures RequestStep(w, SentWorld(w, q, rows), q)
  {
  }

  lemma StoppingKeeps(w: World, h: Hashes, q: RequestId, rows: Rows, decision: Decision)
    requires Invariant(w, h) && InQueue(w, q) && decision != Eligible
    requires ConsumeStep(w.rows, rows, w.permits, h, w.requests[q].shared, decision)
    ensures Invariant(WithStatus(w, q, Stopped).(rows := rows), h)
  {
    StoppingSteps(w, q, rows);
    RequestStepKeeps(w, WithStatus(w, q, Stopped).(rows := rows), h, q);
  }

  lemma SendingKeeps(w: World, h: Hashes, q: RequestId, rows: Rows)
    requires Invariant(w, h) && InQueue(w, q)
    requires ConsumeStep(w.rows, rows, w.permits, h, w.requests[q].shared, Eligible)
    ensures Invariant(SentWorld(w, q, rows), h)
  {
    SendingSteps(w, q, rows);
    RequestStepKeeps(w, SentWorld(w, q, rows), h, q);
  }

  lemma StopKeeps(w: World, h: Hashes, q: RequestId)
    requires Invariant(w, h) && InQueue(w, q)
    ensures Invariant(WithStatus(w, q, Stopped), h)
  {
    var i := w.requests[q].shared;
    assert w.rows == w.rows[i := w.rows[i]];
    StoppingSteps(w, q, w.rows);
    RequestStepKeeps(w, WithStatus(w, q, Stopped), h, q);
  }

  /** The registry's answer keeps the rows safe, whatever it is. */
  lemma PermissionSteps(w: World, h: Hashes, q: RequestId, phone: string, now: Time, facts: Facts)
    requires Safe(w.rows, h) && PermitsFit(w.rows, w.permits) && q in w.requests && w.requests[q].shared in w.rows
    ensures match Permission(w, h, q, phone, now, facts)
      case Consumed(decision, rows) => ConsumeStep(w.rows, rows, w.permits, h, w.requests[q].shared, decision)
      case ConsumeRefused(_) => true
  {
    var i := w.requests[q].shared;
    var legacy := Legacy(w, h, w.rows[i].key, w.rows[i].phone, w.rows[i].email, Some(q), facts.legacy);
    ConsumeSteps(w.rows, w.permits, h, i, phone, NoProof, now, facts.(legacy := legacy));
  }

  /** Whatever the registry answers, the request stops or is sent, consuming its own row. */
  lemma AfterPermissionKeeps(w: World, h: Hashes, q: RequestId, result: ConsumeResult)
    requires Invariant(w, h) && InQueue(w, q)
    requires result.Consumed? ==> ConsumeStep(w.rows, result.rows, w.permits, h, w.requests[q].shared, result.decision)
    ensures Invariant(AfterPermission(w, q, result), h)
    ensures DispatchesKept(w.rows, AfterPermission(w, q, result).rows)
  {
    match result
    case ConsumeRefused(_) => StopKeeps(w, h, q);
    case Consumed(decision, rows) =>
      if decision == Eligible {
        SendingKeeps(w, h, q, rows);
      } else {
        StoppingKeeps(w, h, q, rows, decision);
      }
  }

  /** A delivery either stops the request or sends it, consuming its own row. */
  lemma DeliverKeeps(w: World, h: Hashes, q: RequestId, target: Target, ready: bool, now: Time, facts: Facts)
    requires Invariant(w, h) && q in w.requests && w.requests[q].shared in w.rows
    ensures Invariant(Deliver(w, h, q, target, ready, now, facts), h)
    ensures DispatchesKept(w.rows, Deliver(w, h, q, target, ready, now, facts).rows)
  {
    if w.requests[q].status.Queued? {
      if Outdated(w.requests[q], target, ready, now) {
        StopKeeps(w, h, q);
      } else {
        PermissionSteps(w, h, q, target.phone, now, facts);
        AfterPermissionKeeps(w, h, q, Permission(w, h, q, target.phone, now, facts));
      }
    }
  }

  /** A granted or refused permission touches its own row only. */
  lemma AfterConsumeKeeps(w: World, h: Hashes, i: RowId, result: ConsumeResult)
    requires Invariant(w, h) && i in w.rows && w.rows[i].origin.N8n?
    requires result.Consumed? ==> ConsumeStep(w.rows, result.rows, w.permits, h, i, result.decision)
    ensures Invariant(AfterConsume(w, i, result), h)
    ensures DispatchesKept(w.rows, AfterConsume(w, i, result).rows)
  {
    if result.Consumed? {
      AutomationRowsAreNotWaited(w, i);
      RowStepKeeps(w, AfterConsume(w, i, result), h, i);
    }
  }

  lemma PreflightKeeps(w: World, h: Hashes, i: RowId, phone: string, proof: Proof, now: Time, facts: Facts)
    requires Invariant(w, h) && i in w.rows
    ensures Invariant(Preflight(w, h, i, phone, proof, now, facts), h)
    ensures DispatchesKept(w.rows, Preflight(w, h, i, phone, proof, now, facts).rows)
  {
    if w.rows[i].origin.N8n? {
      var legacy := Legacy(w, h, w.rows[i].key, w.rows[i].phone, w.rows[i].email, None, facts.legacy);
      ConsumeSteps(w.rows, w.permits, h, i, phone, proof, now, facts.(legacy := legacy));
      AfterConsumeKeeps(w, h, i, Consume(w.rows, h, i, phone, proof, now, facts.(legacy := legacy)));
    }
  }

  lemma AutomationRowsAreNotWaited(w: World, i: RowId)
    requires RequestsFit(w) && i in w.rows && (w.rows[i].origin.N8n? || w.rows[i].dispatchedAt.Some?)
    ensures forall q | q in w.requests && w.requests[q].status.Queued? :: w.requests[q].shared != i
  {
    forall q | q in w.requests && w.requests[q].status.Queued?
      ensures w.requests[q].shared != i
    {
      assert Waiting(w, w.requests[q]);
    }
  }

  /** A harmless outcome changes neither the dispatch nor the permit count. */
  lemma OutcomeSteps(rows: Rows, permits: map<RowId, nat>, h: Hashes, i: RowId, state: State, providerId: string)
    requires Safe(rows, h) && PermitsFit(rows, permits) && i in rows
    requires RecordError(rows[i], state, providerId).None? && Harmless(rows[i], state)
    ensures var rows' := rows[i := Recorded(rows[i], state, providerId)];
      Safe(rows', h) && PermitsFit(rows', permits) && DispatchesKept(rows, rows')
  {
    RecordKeepsSafe(rows, h, i, state, providerId);
  }

  lemma AutoRecordKeeps(w: World, h: Hashes, i: RowId, state: State, providerId: string)
    requires Invariant(w, h) && i in w.rows
    ensures Invariant(AutoRecord(w, i, state, providerId), h)
    ensures DispatchesKept(w.rows, AutoRecord(w, i, state, providerId).rows)
  {
    var w' := AutoRecord(w, i, state, providerId);
    if w' != w {
      OutcomeSteps(w.rows, w.permits, h, i, state, providerId);
      AutomationRowsAreNotWaited(w, i);
      RowStepKeeps(w, w', h, i);
    }
  }

  /** A request that was sent records an outcome; one that never left the queue may give up.
      Neither frees a dispatched row. */
  lemma BookKeeps(w: World, h: Hashes, q: RequestId, status: Status, state: State, providerId: string)
    requires Invariant(w, h) && q in w.requests && w.requests[q].shared in w.rows
    requires (w.requests[q].status.Sending? && CallsFor(status) == 1 && !state.QueueFailed? && !state.Blocked?)
          || (w.requests[q].status.Queued? && CallsFor(status) == 0 && !status.Queued?)
    ensures Invariant(Book(w, q, status, state, providerId), h)
    ensures DispatchesKept(w.rows, Book(w, q, status, state, providerId).rows)
  {
    if RecordError(w.rows[w.requests[q].shared], state, providerId).None? {
      QueuedRowIsUnused(w, q);
      BookedKeeps(w, h, q, status, state, providerId);
    }
  }

  lemma BookedKeeps(w: World, h: Hashes, q: RequestId, status: Status, state: State, providerId: string)
    requires Safe(w.rows, h) && PermitsFit(w.rows, w.permits) && RequestsFit(w) && KeysFit(w)
    requires q in w.requests && w.requests[q].shared in w.rows
    requires (w.requests[q].status.Sending? && CallsFor(status) == 1) || (w.requests[q].status.Queued? && CallsFor(status) == 0 && !status.Queued?)
    requires (!state.QueueFailed? && !state.Blocked?) || w.rows[w.requests[q].shared].dispatchedAt.None?
    requires RecordError(w.rows[w.requests[q].shared], state, providerId).None?
    ensures Invariant(Book(w, q, status, state, providerId), h)
    ensures DispatchesKept(w.rows, Book(w, q, status, state, providerId).rows)
  {
    BookKeepsRows(w, h, q, status, state, providerId);
    BookMoves(w, q, status, state, providerId);
    SameKeysKeep(w, Book(w, q, status, state, providerId), h);
  }

  lemma SameKeysKeep(w: World, w': World, h: Hashes)
    requires Safe(w'.rows, h) && PermitsFit(w'.rows, w'.permits) && RequestsFit(w')
    requires KeysFit(w) && w'.keyOf == w.keyOf && w'.retired == w.retired
    ensures Invariant(w', h)
  {
  }

  lemma QueuedRowIsUnused(w: World, q: RequestId)
    requires RequestsFit(w) && q in w.requests
    ensures w.requests[q].shared in w.rows
    ensures w.requests[q].status.Queued? ==> w.rows[w.requests[q].shared].dispatchedAt.None?
  {
    assert Waiting(w, w.requests[q]) && Sent(w, w.requests[q]);
  }

  lemma BookKeepsRows(w: World, h: Hashes, q: RequestId, status: Status, state: State, providerId: string)
    requires Safe(w.rows, h) && PermitsFit(w.rows, w.permits) && q in w.requests && w.requests[q].shared in w.rows
    requires (!state.QueueFailed? && !state.Blocked?) || w.rows[w.requests[q].shared].dispatchedAt.None?
    requires RecordError(w.rows[w.requests[q].shared], state, providerId).None?
    ensures var w' := Book(w, q, status, state, providerId);
      Safe(w'.rows, h) && PermitsFit(w'.rows, w'.permits) && DispatchesKept(w.rows, w'.rows)
  {
    var i := w.requests[q].shared;
    OutcomeSteps(w.rows, w.permits, h, i, state, providerId);
    var rows, w' := w.rows[i := Recorded(w.rows[i], state, providerId)], Book(w, q, status, state, providerId);
    assert w'.rows == rows && w'.permits == w.permits;
  }

  /** Booking moves one request with its own row. */
  lemma BookMoves(w: World, q: RequestId, status: Status, state: State, providerId: string)
    requires RequestsFit(w) && q in w.requests && w.requests[q].shared in w.rows
    requires (w.requests[q].status.Sending? && CallsFor(status) == 1) || (w.requests[q].status.Queued? && CallsFor(status) == 0 && !status.Queued?)
    requires RecordError(w.rows[w.requests[q].shared], state, providerId).None?
    ensures RequestsFit(Book(w, q, status, state, providerId))
  {
    assert Sent(w, w.requests[q]);
    var i, w' := w.requests[q].shared, Book(w, q, status, state, providerId);
    assert w'.rows == w.rows[i := w'.rows[i]];
    RequestStepFits(w, w', q);
  }

  lemma RekeyKeeps(w: World, h: Hashes, b: BookingId, key: Key)
    requires Invariant(w, h) && Enabled(w, RekeyStep(b, key))
    ensures Invariant(Apply(w, h, RekeyStep(b, key)), h)
  {
    var w' := Apply(w, h, RekeyStep(b, key));
    forall q | q in w'.requests
      ensures Waiting(w', w'.requests[q]) && Sent(w', w'.requests[q])
    {
      assert Waiting(w, w.requests[q]) && Sent(w, w.requests[q]);
    }
  }

  lemma WebsiteStepKeeps(w: World, h: Hashes, step: Step)
    requires Invariant(w, h) && Enabled(w, step)
    requires step.QueueStep? || step.DeliverStep? || step.FinishStep? || step.DispatchFailsStep?
    ensures Invariant(Apply(w, h, step), h) && DispatchesKept(w.rows, Apply(w, h, step).rows)
  {
    match step
    case QueueStep(b, q, target, channel, now, member, old_, newId) => QueueKeeps(w, h, b, q, target, channel, now, member, old_, newId);
    case DeliverStep(q, target, ready, now, facts) => DeliverKeeps(w, h, q, target, ready, now, facts);
    case FinishStep(q, accepted, providerId) =>
      if w.requests[q].status.Sending? {
        BookKeeps(w, h, q, if accepted then WasAccepted else Uncertain, if accepted then Accepted else Unknown,
                  if accepted then providerId else "");
      }
    case DispatchFailsStep(q) =>
      if w.requests[q].status.Queued? {
        BookKeeps(w, h, q, QueueRefused, QueueFailed, "");
      }
  }

  lemma AutomationStepKeeps(w: World, h: Hashes, step: Step)
    requires Invariant(w, h) && Enabled(w, step)
    requires step.AutoClaimStep? || step.PreflightStep? || step.AutoRecordStep? || step.RekeyStep?
    ensures Invariant(Apply(w, h, step), h) && DispatchesKept(w.rows, Apply(w, h, step).rows)
  {
    match step
    case AutoClaimStep(key, target, reference, now, closed, member, old_, newId) =>
      AutoClaimKeeps(w, h, key, target, reference, now, closed, member, old_, newId);
    case PreflightStep(i, phone, proof, now, facts) => PreflightKeeps(w, h, i, phone, proof, now, facts);
    case AutoRecordStep(i, state, providerId) => AutoRecordKeeps(w, h, i, state, providerId);
    case RekeyStep(b, key) => RekeyKeeps(w, h, b, key);
  }

  lemma StepKeeps(w: World, h: Hashes, step: Step)
    requires Invariant(w, h) && Enabled(w, step)
    ensures Invariant(Apply(w, h, step), h) && DispatchesKept(w.rows, Apply(w, h, step).rows)
  {
    if step.QueueStep? || step.DeliverStep? || step.FinishStep? || step.DispatchFailsStep? {
      WebsiteStepKeeps(w, h, step);
    } else {
      AutomationStepKeeps(w, h, step);
    }
  }

  lemma {:induction false} RunKeepsInvariant(states: seq<World>, steps: seq<Step>, h: Hashes, j: nat)
    requires Run(states, steps, h) && j < |states|
    ensures Invariant(states[j], h)
  {
    if j > 0 {
      RunKeepsInvariant(states, steps, h, j - 1);
      StepKeeps(states[j - 1], h, steps[j - 1]);
    }
  }

  /** In every run no row is ever granted a second permit, no request causes a second
      provider call, and two dispatched rows never share a booking, a phone, an address
      or a customer. */
  lemma OneSendOnly(states: seq<World>, steps: seq<Step>, h: Hashes, j: nat)
    requires Run(states, steps, h) && j < |states|
    ensures forall i :: Count(states[j].permits, i) <= 1
    ensures forall q :: Count(states[j].calls, q) <= 1
    ensures var rows := states[j].rows;
      forall a, b | a in rows && b in rows && a != b && rows[a].dispatchedAt.Some? && rows[b].dispatchedAt.Some? ::
        !ShareSomething(rows[a], rows[b])
  {
    RunKeepsInvariant(states, steps, h, j);
  }

  /** A dispatched row stays dispatched for the rest of the run. */
  lemma {:induction false} DispatchIsForever(states: seq<World>, steps: seq<Step>, h: Hashes, i: nat, j: nat)
    requires Run(states, steps, h) && i <= j < |states|
    ensures DispatchesKept(states[i].rows, states[j].rows)
    decreases j - i
  {
    if i < j {
      RunKeepsInvariant(states, steps, h, i);
      StepKeeps(states[i], h, steps[i]);
      DispatchIsForever(states, steps, h, i + 1, j);
    }
  }

  /** The queue's failure report, which would free a dispatched row, never meets one. */
  lemma QueueFailureNeverMeetsADispatch(states: seq<World>, steps: seq<Step>, h: Hashes, j: nat, q: RequestId)
    requires Run(states, steps, h) && j < |states|
    requires q in states[j].requests && states[j].requests[q].status.Queued?
    ensures states[j].requests[q].shared in states[j].rows
    ensures Harmless(states[j].rows[states[j].requests[q].shared], QueueFailed)
  {
    RunKeepsInvariant(states, steps, h, j);
    assert Waiting(states[j], states[j].requests[q]);
  }

  // ----- Tickets over whole runs -----

  lemma StepRenews(w: World, h: Hashes, step: Step)
    requires Enabled(w, step)
    ensures Renewed(w.rows, Apply(w, h, step).rows)
  {
    match step
    case QueueStep(b, q, target, channel, now, member, old_, newId) =>
      ClaimRenews(w.rows, h,
        Press(w, b, q, target, channel),
        now, member, Legacy(w, h, w.keyOf[b], target.phone, target.email, None, old_), newId);
    case AutoClaimStep(key, target, reference, now, closed, member, old_, newId) =>
      ClaimRenews(w.rows, h,
        Asked(key, target, reference),
        now, member, Legacy(w, h, key, target.phone, target.email, None, old_), newId);
    case DeliverStep(q, target, ready, now, facts) =>
      var i := w.requests[q].shared;
      var legacy := Legacy(w, h, w.rows[i].key, w.rows[i].phone, w.rows[i].email, Some(q), facts.legacy);
      ConsumeRenews(w.rows, h, i, target.phone, NoProof, now, facts.(legacy := legacy));
    case PreflightStep(i, phone, proof, now, facts) =>
      var legacy := Legacy(w, h, w.rows[i].key, w.rows[i].phone, w.rows[i].email, None, facts.legacy);
      ConsumeRenews(w.rows, h, i, phone, proof, now, facts.(legacy := legacy));
    case _ =>
  }

  lemma AdjacentRenews(states: seq<World>, steps: seq<Step>, h: Hashes, j: nat)
    requires Run(states, steps, h) && j < |steps|
    ensures Renewed(states[j].rows, states[j + 1].rows)
  {
    StepRenews(states[j], h, steps[j]);
  }

  lemma {:induction false} RunRenews(states: seq<World>, steps: seq<Step>, h: Hashes, i: nat, j: nat)
    requires Run(states, steps, h) && i <= j < |states|
    ensures Renewed(states[i].rows, states[j].rows)
    decreases j - i
  {
    if i < j {
      AdjacentRenews(states, steps, h, i);
      RunRenews(states, steps, h, i + 1, j);
      var (a, b, c) := (states[i].rows, states[i + 1].rows, states[j].rows);
      RenewedTransitive(a, b, c);
    }
  }

  /** A ticket issued at one moment of a run is good at a later one exactly while its row was
      not reopened in between and the ticket is young enough. */
  lemma TicketLivesUntilReopened(states: seq<World>, steps: seq<Step>, h: Hashes, i: nat, j: nat, r: RowId, at: Time, now: Time)
    requires Run(states, steps, h) && i <= j < |states| && r in states[i].rows
    ensures r in states[j].rows
    ensures ProofError(states[j].rows, r, Signed(TicketFor(states[i].rows, r, at)), now).None? <==>
      states[j].rows[r].generation == states[i].rows[r].generation && now - at <= TTL
  {
    RunRenews(states, steps, h, i, j);
    TicketGoodExactly(states[i].rows, states[j].rows, r, at, now);
  }

  /** Once a row was reopened, every ticket issued before is refused for good. */
  lemma OldTicketsStayRefused(states: seq<World>, steps: seq<Step>, h: Hashes, i: nat, k: nat, j: nat, r: RowId, at: Time,
                              phone: string, now: Time, facts: Facts)
    requires Run(states, steps, h) && i <= k <= j < |states| && r in states[i].rows
    requires r in states[k].rows && states[k].rows[r].generation != states[i].rows[r].generation
    ensures r in states[j].rows
    ensures Consume(states[j].rows, h, r, phone, Signed(TicketFor(states[i].rows, r, at)), now, facts).ConsumeRefused?
  {
    RunRenews(states, steps, h, i, k);
    RunRenews(states, steps, h, k, j);
    assert RowRenewed(states[i].rows[r], states[k].rows[r]) && RowRenewed(states[k].rows[r], states[j].rows[r]);
    OldTicketsAreRefused(states[j].rows, h, r, phone, TicketFor(states[i].rows, r, at), now, facts);
  }

  // ----- What each transaction promises its caller -----

  /** Before anything was claimed there is nothing to keep. */
  lemma EmptyKeeps(h: Hashes)
    ensures Invariant(World(map[], map[], map[], {}, map[], map[]), h)
  {
  }

  lemma QueuePromise(w: World, h: Hashes, b: BookingId, q: RequestId, target: Target, channel: Channel,
                     now: Time, member: bool, old_: bool, newId: RowId)
    requires Invariant(w, h) && b in w.keyOf && newId !in w.rows
    ensures var w' := Queue(w, h, b, q, target, channel, now, member, old_, newId);
      && Invariant(w', h) && (q in w.requests ==> w' == w)
      && (q in w'.requests && q !in w.requests ==> w'.requests[q].status.Queued? && Waiting(w', w'.requests[q]) && Count(w'.calls, q) == 0)
  {
    QueueKeeps(w, h, b, q, target, channel, now, member, old_, newId);
    var w' := Queue(w, h, b, q, target, channel, now, member, old_, newId);
    if q in w'.requests {
      assert Waiting(w', w'.requests[q]);
    }
  }

  /** A sent request spent the one permit of a row never dispatched before, for its one call. */
  ghost predicate SentOnce(w: World, w': World, q: RequestId)
  {
    && q in w.requests && w.requests[q].status.Queued? && q in w'.requests && w'.requests[q].status.Sending?
    && Count(w.calls, q) == 0 && Count(w'.calls, q) == 1
    && var i := w.requests[q].shared;
       && i in w.rows && i in w'.rows && w.rows[i].dispatchedAt.None? && w'.rows[i].dispatchedAt.Some?
       && Count(w.permits, i) == 0 && Count(w'.permits, i) == 1
       && forall j | j in w'.rows && j != i && w'.rows[j].dispatchedAt.Some? :: !ShareSomething(w'.rows[i], w'.rows[j])
  }

  /** What the tables say before and after tells that the one permit was spent on the one call. */
  lemma SendingIsOnce(w: World, w': World, q: RequestId)
    requires q in w.requests && Waiting(w, w.requests[q]) && CallsFit(w.requests, w.calls) && PermitsFit(w.rows, w.permits)
    requires q in w'.requests && Sent(w', w'.requests[q]) && CallsFit(w'.requests, w'.calls) && PermitsFit(w'.rows, w'.permits)
    requires w.requests[q].status.Queued? && w'.requests[q].status.Sending? && w'.requests[q].shared == w.requests[q].shared
    requires Apart(w'.rows)
    ensures SentOnce(w, w', q)
  {
  }

  lemma PermissionMoves(w: World, q: RequestId, result: ConsumeResult)
    requires q in w.requests && w.requests[q].shared in w.rows
    ensures var w' := AfterPermission(w, q, result);
      && q in w'.requests && w'.requests[q].shared == w.requests[q].shared
      && (if w'.calls != w.calls then w'.requests[q].status.Sending? else w'.requests[q].status.Stopped?)
  {
    assert Count(w.calls, q) + 1 != Count(w.calls, q);
  }

  lemma DeliverMoves(w: World, h: Hashes, q: RequestId, target: Target, ready: bool, now: Time, facts: Facts)
    requires q in w.requests && w.requests[q].shared in w.rows
    ensures var w' := Deliver(w, h, q, target, ready, now, facts);
      && q in w'.requests && w'.requests[q].shared == w.requests[q].shared && !w'.requests[q].status.Queued?
      && (w'.calls != w.calls ==> w.requests[q].status.Queued? && w'.requests[q].status.Sending?)
      && (w.requests[q].status.Queued? && w'.calls == w.calls ==> w'.requests[q].status.Stopped?)
  {
    PermissionMoves(w, q, Permission(w, h, q, target.phone, now, facts));
  }

  lemma DeliverPromise(w: World, h: Hashes, q: RequestId, target: Target, ready: bool, now: Time, facts: Facts)
    requires Invariant(w, h) && q in w.requests && w.requests[q].shared in w.rows
    ensures Invariant(Deliver(w, h, q, target, ready, now, facts), h)
    ensures Deliver(w, h, q, target, ready, now, facts).calls != w.calls ==> SentOnce(w, Deliver(w, h, q, target, ready, now, facts), q)
  {
    DeliverKeeps(w, h, q, target, ready, now, facts);
    DeliverMoves(w, h, q, target, ready, now, facts);
    var w' := Deliver(w, h, q, target, ready, now, facts);
    if w'.calls != w.calls {
      assert Waiting(w, w.requests[q]) && Sent(w', w'.requests[q]);
      SendingIsOnce(w, w', q);
    }
  }

  /** Booking an answer grants nothing: permits and calls stay. */
  lemma FinishGrantsNothing(w: World, q: RequestId, accepted: bool, providerId: string)
    requires q in w.requests && w.requests[q].shared in w.rows
    ensures var w' := Finish(w, q, accepted, providerId);
      && w'.permits == w.permits && w'.calls == w.calls && w'.requests.Keys == w.requests.Keys && w'.rows.Keys == w.rows.Keys
      && (!w.requests[q].status.Sending? ==> w' == w)
      && (w' == w
          || (w'.requests[q].status == (if accepted then WasAccepted else Uncertain)
              && (if accepted then Accepted else Unknown) in w'.rows[w.requests[q].shared].outcomes))
  {
  }

  lemma FinishKeeps(w: World, h: Hashes, q: RequestId, accepted: bool, providerId: string)
    requires Invariant(w, h) && q in w.requests && w.requests[q].shared in w.rows
    ensures Invariant(Finish(w, q, accepted, providerId), h)
    ensures DispatchesKept(w.rows, Finish(w, q, accepted, providerId).rows)
  {
    WebsiteStepKeeps(w, h, FinishStep(q, accepted, providerId));
  }

  /** A refused task: no call was ever made for the request, and its row may be claimed again at once. */
  lemma DispatchFailsPromise(w: World, h: Hashes, q: RequestId)
    requires Invariant(w, h) && q in w.requests && w.requests[q].shared in w.rows
    ensures Invariant(DispatchFails(w, q), h)
    ensures var (w', i) := (DispatchFails(w, q), w.requests[q].shared);
      w' != w ==> Count(w'.calls, q) == 0 && w'.rows[i].dispatchedAt.None? && forall now :: Retryable(w'.rows[i], now)
  {
    WebsiteStepKeeps(w, h, DispatchFailsStep(q));
    if w.requests[q].status.Queued? {
      assert Waiting(w, w.requests[q]);
      UnusedRowGivesWay(w.rows, h, w.requests[q].shared);
    }
  }

  lemma DispatchFailsMoves(w: World, q: RequestId)
    requires q in w.requests && w.requests[q].shared in w.rows
    ensures var w' := DispatchFails(w, q);
      && w'.calls == w.calls && w'.permits == w.permits && !w'.requests[q].status.Queued?
      && (!w.requests[q].status.Queued? ==> w' == w)
  {
  }

  lemma UnusedRowGivesWay(rows: Rows, h: Hashes, i: RowId)
    requires Safe(rows, h) && i in rows && rows[i].dispatchedAt.None?
    ensures RecordError(rows[i], QueueFailed, "").None?
    ensures forall now :: Retryable(Recorded(rows[i], QueueFailed, ""), now)
  {
    assert !Locked(rows[i]);
  }

  /** What the automation's claim does: it opens row i for the booking, or changes nothing. No
      website request waits on the opened row. */
  ghost predicate AutoClaimed(w: World, w': World, h: Hashes, r: Request, i: RowId)
  {
    && w' == w.(rows := w'.rows) && ClaimOpened(w.rows, w'.rows, h, r, i)
    && forall q | q in w.requests && w.requests[q].status.Queued? :: w.requests[q].shared != i
  }

  ghost function AutoAnswer(w: World, h: Hashes, key: Key, target: Target, reference: string,
                            now: Time, member: bool, old_: bool, newId: RowId): ClaimResult
  {
    Claim(w.rows, h, Asked(key, target, reference), now, member, Legacy(w, h, key, target.phone, target.email, None, old_), newId)
  }

  predicate Eligibly(claim: ClaimResult) { claim.Answer? && claim.decision == Eligible }

  lemma AutoClaimMoves(w: World, h: Hashes, key: Key, target: Target, reference: string,
                       now: Time, closed: bool, member: bool, old_: bool, newId: RowId)
    requires Safe(w.rows, h) && newId !in w.rows
    ensures var (w', claim) := (AutoClaim(w, h, key, target, reference, now, closed, member, old_, newId), AutoAnswer(w, h, key, target, reference, now, member, old_, newId));
      if !closed && Eligibly(claim) then
        && !member && !Legacy(w, h, key, target.phone, target.email, None, old_)
        && w' == w.(rows := w'.rows) && claim.row.Some? && ClaimOpened(w.rows, w'.rows, h, Asked(key, target, reference), claim.row.value)
      else w' == w
  {
    var r, legacy := Asked(key, target, reference), Legacy(w, h, key, target.phone, target.email, None, old_);
    ClaimOpens(w.rows, h, r, now, member, legacy, newId);
    ClaimNeedsNoReceipt(w.rows, h, r, now, member, legacy, newId);
    ClaimNeedsNoMember(w.rows, h, r, now, legacy, newId);
  }

  lemma AutoClaimPromise(w: World, h: Hashes, key: Key, target: Target, reference: string,
                         now: Time, closed: bool, member: bool, old_: bool, newId: RowId)
    requires Safe(w.rows, h) && RequestsFit(w) && key !in w.retired && newId !in w.rows
    ensures var (w', claim) := (AutoClaim(w, h, key, target, reference, now, closed, member, old_, newId), AutoAnswer(w, h, key, target, reference, now, member, old_, newId));
      if !closed && Eligibly(claim) then !member && claim.row.Some? && AutoClaimed(w, w', h, Asked(key, target, reference), claim.row.value)
      else w' == w
  {
    AutoClaimMoves(w, h, key, target, reference, now, closed, member, old_, newId);
    var claim := AutoAnswer(w, h, key, target, reference, now, member, old_, newId);
    if !closed && Eligibly(claim) {
      NoWaitingOn(w, h, key, target.phone, target.email, None, old_, claim.row.value);
    }
  }

  /** The one permit of row i: it was an automation's row, never dispatched, with this phone and a
      claim still open; a ticket shown is of its generation and young. */
  ghost predicate PermittedOnce(w: World, w': World, i: RowId, phone: string, proof: Proof, now: Time)
  {
    && i in w.rows && i in w'.rows && w.rows[i].origin.N8n? && w.rows[i].dispatchedAt.None? && w'.rows[i].dispatchedAt == Some(now)
    && w.rows[i].phone == phone && now < w.rows[i].expiresAt
    && proof.Signed? && proof.ticket.generation == w.rows[i].generation && now - proof.ticket.issuedAt <= TTL
    && Count(w.permits, i) == 0 && w'.permits == w.permits[i := 1]
    && forall j | j in w'.rows && j != i && w'.rows[j].dispatchedAt.Some? :: !ShareSomething(w'.rows[i], w'.rows[j])
  }

  /** Nothing was dispatched: permits stay, and every row keeps its dispatch or lack of one. */
  ghost predicate NothingDispatched(w: World, w': World)
  {
    w'.permits == w.permits && w'.rows.Keys == w.rows.Keys && forall j | j in w.rows :: w'.rows[j].dispatchedAt == w.rows[j].dispatchedAt
  }

  predicate Granted(result: ConsumeResult) { result.Consumed? && result.decision == Eligible }

  /** Only an undispatched row is consumed, and only while everything it was claimed with stands. */
  lemma GrantMeans(rows: Rows, h: Hashes, i: RowId, phone: string, proof: Proof, now: Time, facts: Facts)
    requires Safe(rows, h) && i in rows
    ensures var result := Consume(rows, h, i, phone, proof, now, facts);
      if Granted(result) then
        && rows[i].dispatchedAt.None? && rows[i].phone == phone && now < rows[i].expiresAt && ProofError(rows, i, proof, now).None?
        && result.rows == rows[i := rows[i].(state := Unknown, dispatchedAt := Some(now))]
      else result.Consumed? ==>
        result.rows.Keys == rows.Keys && forall j | j in rows :: result.rows[j].dispatchedAt == rows[j].dispatchedAt
  {
  }

  lemma PreflightMoves(w: World, h: Hashes, i: RowId, phone: string, proof: Proof, now: Time, facts: Facts)
    requires i in w.rows && w.rows[i].origin.N8n? && !proof.NoProof?
    ensures var (w', result) := (Preflight(w, h, i, phone, proof, now, facts), Preflighted(w, h, i, phone, proof, now, facts));
      w' == w.(rows := if result.Consumed? then result.rows else w.rows,
               permits := if Granted(result) then w.permits[i := Count(w.permits, i) + 1] else w.permits)
  {
  }

  lemma PreflightPromise(w: World, h: Hashes, i: RowId, phone: string, proof: Proof, now: Time, facts: Facts)
    requires Safe(w.rows, h) && PermitsFit(w.rows, w.permits) && i in w.rows && w.rows[i].origin.N8n? && !proof.NoProof?
    requires Apart(Preflight(w, h, i, phone, proof, now, facts).rows)
    ensures var w' := Preflight(w, h, i, phone, proof, now, facts);
      if Granted(Preflighted(w, h, i, phone, proof, now, facts)) then PermittedOnce(w, w', i, phone, proof, now) else NothingDispatched(w, w')
  {
    PreflightMoves(w, h, i, phone, proof, now, facts);
    var legacy := Legacy(w, h, w.rows[i].key, w.rows[i].phone, w.rows[i].email, None, facts.legacy);
    GrantMeans(w.rows, h, i, phone, proof, now, facts.(legacy := legacy));
    if Granted(Preflighted(w, h, i, phone, proof, now, facts)) {
      DispatchedIsApart(Preflight(w, h, i, phone, proof, now, facts).rows, i);
    }
  }

  lemma DispatchedIsApart(rows: Rows, i: RowId)
    requires Apart(rows) && i in rows && rows[i].dispatchedAt.Some?
    ensures forall j | j in rows && j != i && rows[j].dispatchedAt.Some? :: !ShareSomething(rows[i], rows[j])
  {
  }

  /** A report of the automation changes one row of its own: its dispatch stays, its rank does not
      drop, its provider id is never replaced, and the status is listed. */
  ghost predicate Reported(w: World, w': World, i: RowId, state: State, providerId: string)
  {
    && w' == w.(rows := w'.rows) && i in w.rows && i in w'.rows && w'.rows == w.rows[i := w'.rows[i]]
    && var (a, b) := (w.rows[i], w'.rows[i]);
       && a.origin.N8n? && a.dispatchedAt.Some? && SameDispatch(a, b) && b.generation == a.generation
       && state in b.outcomes && Rank(b.state) == Max(Rank(a.state), Rank(state))
       && b.providerId == (if a.providerId != "" then a.providerId else providerId)
  }

  /** A report the automation may make of this row. */
  predicate Taken(row: Invitation, state: State, providerId: string)
  {
    Reportable(state) && row.origin.N8n? && RecordError(row, state, providerId).None?
  }

  lemma AutoRecordMoves(w: World, i: RowId, state: State, providerId: string)
    requires i in w.rows
    ensures if Taken(w.rows[i], state, providerId) then Reported(w, AutoRecord(w, i, state, providerId), i, state, providerId)
            else AutoRecord(w, i, state, providerId) == w
  {
  }
}
