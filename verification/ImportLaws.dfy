/** What an import may do, in the tables' own fields: whose records it links, which rows it
    stores, counts and hides, and when a start, a lease and a page go through. */
module ImportLaws {
  import opened Wrappers
  import opened BookingHistory
  import opened ImportProtocol

  // ----- Whose records are linked -----

  /** The step is one by this worker, and the reply holds this row. */
  predicate Brings(w: World, step: Step, row: Row)
  {
    step.FinishStep? && step.lease in w.workers && step.reply.Rows? && row in step.reply.rows
  }

  /** The row is about booking b and carries exactly the identity's address and number. */
  predicate About(row: Row, b: BookingId, identity: Identity)
  {
    row.id == Some(b) && row.email == Some(identity.email) && row.phone == Some(identity.phone)
  }

  /** A booking request gets an owner by a start only when it is reserved and carries exactly the
      user's own address and number. */
  lemma StartLinksOwn(w: World, step: Step, i: IntentId)
    requires step.StartStep? && Enabled(w, step)
    requires i in w.tables.intents && w.tables.intents[i].customer.None? && Linked(Apply(w, step).tables, OfIntent(i))
    ensures var (before, after) := (w.tables.intents[i], Apply(w, step).tables.intents[i]);
      && step.identity.Some? && before.email == Some(step.identity.value.email) && before.phone == Some(step.identity.value.phone)
      && before.reserved && after == before.(customer := Some(step.user))
  {
  }

  /** After a start nothing that is reserved, carries exactly that pair and has no owner is left. */
  lemma StartLinksAll(w: World, user: User, now: Time, g: Uuid, identity: Identity, i: IntentId)
    requires Start(w, user, now, g, Some(identity)).1.Started? && i in w.tables.intents
    requires w.tables.intents[i].reserved && w.tables.intents[i].email == Some(identity.email) && w.tables.intents[i].phone == Some(identity.phone)
    ensures var after := Start(w, user, now, g, Some(identity)).0.tables.intents;
      i in after && after[i].customer == if w.tables.intents[i].customer.Some? then w.tables.intents[i].customer else Some(user)
  {
  }

  /** What the rows of a page account for: a request newly linked carries the worker's pair and is
      the one behind a row with that pair; a recovered booking newly written has such a row. */
  ghost predicate OwnLinks(t: Tables, t': Tables, user: User, identity: Identity, rows: seq<Row>)
  {
    && t'.reservations == t.reservations && t'.intents.Keys == t.intents.Keys && t.history.Keys <= t'.history.Keys
    && (forall i | i in t.intents && t'.intents[i] != t.intents[i] :: OwnIntent(t, t', user, identity, rows, i))
    && (forall b | b in t'.history && (b !in t.history || t'.history[b] != t.history[b]) :: OwnHistory(t, t', user, identity, rows, b))
  }

  ghost predicate OwnIntent(t: Tables, t': Tables, user: User, identity: Identity, rows: seq<Row>, i: IntentId)
    requires i in t.intents && i in t'.intents
  {
    && t.intents[i].customer.None? && t'.intents[i] == t.intents[i].(customer := Some(user))
    && t.intents[i].email == Some(identity.email) && t.intents[i].phone == Some(identity.phone)
    && exists k, b :: 0 <= k < |rows| && About(rows[k], b, identity) && b in t.reservations && t.reservations[b] == Some(i)
  }

  ghost predicate OwnHistory(t: Tables, t': Tables, user: User, identity: Identity, rows: seq<Row>, b: BookingId)
    requires b in t'.history
  {
    && t'.history[b].user == user && (b in t.history ==> t.history[b].user == user)
    && exists k :: 0 <= k < |rows| && About(rows[k], b, identity)
  }

  lemma MoreRows(t: Tables, t': Tables, user: User, identity: Identity, rows: seq<Row>, row: Row)
    requires OwnLinks(t, t', user, identity, rows)
    ensures OwnLinks(t, t', user, identity, rows + [row])
  {
    var all := rows + [row];
    assert forall k | 0 <= k < |rows| :: all[k] == rows[k];
    forall i | i in t.intents && t'.intents[i] != t.intents[i] ensures OwnIntent(t, t', user, identity, all, i) {
      var k, b :| 0 <= k < |rows| && About(rows[k], b, identity) && b in t.reservations && t.reservations[b] == Some(i);
      assert About(all[k], b, identity);
    }
    forall b | b in t'.history && (b !in t.history || t'.history[b] != t.history[b]) ensures OwnHistory(t, t', user, identity, all, b) {
      var k :| 0 <= k < |rows| && About(rows[k], b, identity);
      assert About(all[k], b, identity);
    }
  }

  lemma RowLinksOwn(t: Tables, p: Progress, user: User, identity: Identity, g: Uuid, rows: seq<Row>, row: Row)
    requires OwnLinks(t, p.tables, user, identity, rows) && row.id.Some? && row.id.value > 0
    ensures OwnLinks(t, StoreRow(p, user, identity, g, row).tables, user, identity, rows + [row])
  {
    MoreRows(t, p.tables, user, identity, rows, row);
    var all, q := rows + [row], StoreRow(p, user, identity, g, row);
    if q.tables != p.tables {
      var b := row.id.value;
      assert all[|rows|] == row && About(row, b, identity);
      forall i | i in t.intents && q.tables.intents[i] != t.intents[i] ensures OwnIntent(t, q.tables, user, identity, all, i) {
        if q.tables.intents[i] == p.tables.intents[i] { assert OwnIntent(t, p.tables, user, identity, all, i); }
      }
      forall c | c in q.tables.history && (c !in t.history || q.tables.history[c] != t.history[c]) ensures OwnHistory(t, q.tables, user, identity, all, c) {
        if c in p.tables.history && (c !in t.history || p.tables.history[c] != t.history[c]) {
          assert OwnHistory(t, p.tables, user, identity, all, c);
        }
      }
    }
  }

  lemma {:induction false} RowsLinkOwn(p: Progress, user: User, identity: Identity, g: Uuid, rows: seq<Row>)
    requires forall j | 0 <= j < |rows| :: rows[j].id.Some? && rows[j].id.value > 0
    ensures OwnLinks(p.tables, StoreAll(p, user, identity, g, rows).tables, user, identity, rows)
  {
    if rows != [] {
      var before, last := rows[..|rows| - 1], rows[|rows| - 1];
      RowsLinkOwn(p, user, identity, g, before);
      RowLinksOwn(p.tables, StoreAll(p, user, identity, g, before), user, identity, g, before, last);
      assert before + [last] == rows;
    }
  }

  /** Hiding changes nothing but what is shown. */
  lemma HidingShowsLess(h: map<BookingId, Seen>, user: User, g: Uuid)
    ensures HideUnseen(h, user, g).Keys == h.Keys && forall b | b in h :: HideUnseen(h, user, g)[b].user == h[b].user
  {
  }

  lemma CommittedPageWrites(w: World, worker: Worker, now: Time, rows: seq<Row>)
    requires worker.user in w.jobs && forall j | 0 <= j < |rows| :: rows[j].id.Some? && rows[j].id.value > 0
    ensures var (t, p) := (WithPage(w, worker, now, rows).tables, Stored(w, worker, rows).tables);
      && t.intents == p.intents && t.history.Keys == p.history.Keys && t.reservations == p.reservations
      && forall b | b in p.history :: t.history[b].user == p.history[b].user
  {
    HidingShowsLess(Stored(w, worker, rows).tables.history, worker.user, worker.generation);
  }

  lemma PageWrites(w: World, worker: Worker, step: Step)
    requires step.FinishStep? && Enabled(w, step) && worker == w.workers[step.lease]
    requires Apply(w, step).tables != w.tables
    ensures step.reply.Rows? && forall j | 0 <= j < |step.reply.rows| :: step.reply.rows[j].id.Some? && step.reply.rows[j].id.value > 0
    ensures var (t, p) := (Apply(w, step).tables, Stored(w, worker, step.reply.rows).tables);
      && t.intents == p.intents && t.history.Keys == p.history.Keys && t.reservations == p.reservations
      && forall b | b in p.history :: t.history[b].user == p.history[b].user
  {
    if Usable(step.reply) {
      CommittedPageWrites(w, worker, step.now, step.reply.rows);
    }
  }

  lemma PageOwn(w: World, worker: Worker, step: Step)
    requires step.FinishStep? && Enabled(w, step) && worker == w.workers[step.lease]
    requires step.reply.Rows? && forall j | 0 <= j < |step.reply.rows| :: step.reply.rows[j].id.Some? && step.reply.rows[j].id.value > 0
    ensures OwnLinks(w.tables, Stored(w, worker, step.reply.rows).tables, worker.user, worker.identity, step.reply.rows)
  {
    var job := w.jobs[worker.user];
    RowsLinkOwn(Progress(w.tables, job.added, job.conflicts, job.skipped, {}, {}), worker.user, worker.identity, worker.generation, step.reply.rows);
  }

  /** A page links a request only to the worker's user, only when the request carries exactly the
      pair the worker was leased with, and only behind a row of the page with that pair. */
  lemma FinishLinksOwn(w: World, step: Step, i: IntentId)
    requires step.FinishStep? && Enabled(w, step)
    requires i in w.tables.intents && w.tables.intents[i].customer.None? && Linked(Apply(w, step).tables, OfIntent(i))
    ensures step.reply.Rows?
    ensures OwnIntent(w.tables, Apply(w, step).tables, w.workers[step.lease].user, w.workers[step.lease].identity, step.reply.rows, i)
  {
    PageWrites(w, w.workers[step.lease], step);
    PageOwn(w, w.workers[step.lease], step);
  }

  /** A page writes a recovered booking only for the worker's user, and only from a row with that pair. */
  lemma FinishWritesOwn(w: World, step: Step, b: BookingId)
    requires step.FinishStep? && Enabled(w, step)
    requires b !in w.tables.history && b in Apply(w, step).tables.history
    ensures step.reply.Rows?
    ensures OwnHistory(w.tables, Apply(w, step).tables, w.workers[step.lease].user, w.workers[step.lease].identity, step.reply.rows, b)
  {
    PageWrites(w, w.workers[step.lease], step);
    PageOwn(w, w.workers[step.lease], step);
  }

  /** Step m leased the job of this worker's user, with this identity. */
  predicate LeasedBy(steps: seq<Step>, m: nat, l: Uuid, worker: Worker)
    requires m < |steps|
  {
    match steps[m]
    case LeaseStep(user, g, _, lease, identity) =>
      lease == l && user == worker.user && g == worker.generation && identity == Some(worker.identity)
    case _ => false
  }

  /** A worker carries the identity its user had when it got its lease. */
  lemma {:induction false} WorkersWereLeased(states: seq<World>, steps: seq<Step>, n: nat, l: Uuid)
    requires Run(states, steps) && n < |states| && l in states[n].workers
    ensures exists m :: 0 <= m < n && LeasedBy(steps, m, l, states[n].workers[l])
  {
    var w := states[n - 1];
    if l in w.workers && states[n].workers[l] == w.workers[l] {
      WorkersWereLeased(states, steps, n - 1, l);
      var m :| 0 <= m < n - 1 && LeasedBy(steps, m, l, w.workers[l]);
      assert m < n;
    } else {
      assert LeasedBy(steps, n - 1, l, states[n].workers[l]);
    }
  }

  /** Over any run a booking request gets an owner from a start or a page only if it carries
      exactly that user's address and number, as they were when the import was started or the
      page was leased. */
  lemma OnlyOwnRequestsAreLinked(states: seq<World>, steps: seq<Step>, j: nat, i: IntentId) returns (user: User, identity: Identity)
    requires Run(states, steps) && j < |steps| && (steps[j].StartStep? || steps[j].FinishStep?)
    requires i in states[j].tables.intents && states[j].tables.intents[i].customer.None? && Linked(states[j + 1].tables, OfIntent(i))
    ensures states[j + 1].tables.intents[i].customer == Some(user)
    ensures states[j].tables.intents[i].email == Some(identity.email) && states[j].tables.intents[i].phone == Some(identity.phone)
    ensures match steps[j]
      case StartStep(u, _, _, given) => user == u && given == Some(identity)
      case FinishStep(l, _, _, _) =>
        l in states[j].workers && user == states[j].workers[l].user && identity == states[j].workers[l].identity
        && exists m :: 0 <= m < j && LeasedBy(steps, m, l, states[j].workers[l])
  {
    if steps[j].StartStep? {
      StartLinksOwn(states[j], steps[j], i);
      user, identity := steps[j].user, steps[j].identity.value;
    } else {
      FinishLinksOwn(states[j], steps[j], i);
      WorkersWereLeased(states, steps, j, steps[j].lease);
      user, identity := states[j].workers[steps[j].lease].user, states[j].workers[steps[j].lease].identity;
    }
  }

  // ----- What a page stores and counts -----

  predicate Pair(row: Row, identity: Identity)
  {
    row.email == Some(identity.email) && row.phone == Some(identity.phone)
  }

  /** The booking request behind a provider booking. */
  predicate Behind(t: Tables, b: BookingId, i: IntentId)
  {
    b in t.reservations && t.reservations[b] == Some(i) && i in t.intents
  }

  /** The booking is settled for this identity: its request has an owner, or it is a recovered
      booking and no request with the pair is behind it. */
  ghost predicate IsStored(t: Tables, b: BookingId, identity: Identity)
  {
    || (exists i :: Behind(t, b, i) && t.intents[i].customer.Some?)
    || (b in t.history && forall i | Behind(t, b, i) :: t.intents[i].email != Some(identity.email) || t.intents[i].phone != Some(identity.phone))
  }

  /** The booking is somebody else's: its request's owner's, or if it has none the one it is shown to. */
  ghost predicate IsTaken(t: Tables, b: BookingId, user: User)
  {
    if exists i :: Behind(t, b, i) && t.intents[i].customer.Some? then exists i :: Behind(t, b, i) && t.intents[i].customer.Some? && t.intents[i].customer != Some(user)
    else b in t.history && t.history[b].user != user
  }

  predicate SkippedRow(row: Row, identity: Identity) { Pair(row, identity) && (row.fault.Malformed? || row.fault.Overflow?) }

  predicate GoodRow(row: Row, identity: Identity) { Pair(row, identity) && row.fault.Fine? && row.id.Some? && row.id.value > 0 }

  ghost predicate TakenRow(t: Tables, row: Row, user: User, identity: Identity) { GoodRow(row, identity) && IsTaken(t, row.id.value, user) }

  ghost function SkippedRows(rows: seq<Row>, identity: Identity): set<nat> { set k: nat | k < |rows| && SkippedRow(rows[k], identity) }

  ghost function TakenRows(t: Tables, rows: seq<Row>, user: User, identity: Identity): set<nat>
  {
    set k: nat | k < |rows| && TakenRow(t, rows[k], user, identity)
  }

  ghost predicate AllStored(t: Tables, rows: seq<Row>, identity: Identity)
  {
    forall k | 0 <= k < |rows| && GoodRow(rows[k], identity) :: IsStored(t, rows[k].id.value, identity)
  }

  /** Storing one more booking leaves settled ones settled, for the same owner. */
  lemma StoringKeeps(p: Progress, user: User, identity: Identity, g: Uuid, row: Row, b: BookingId)
    requires row.id.Some? && row.id.value > 0 && IsStored(p.tables, b, identity)
    ensures var q := StoreRow(p, user, identity, g, row);
      IsStored(q.tables, b, identity) && (IsTaken(q.tables, b, user) <==> IsTaken(p.tables, b, user))
  {
    var q := StoreRow(p, user, identity, g, row);
    forall i ensures Behind(q.tables, b, i) <==> Behind(p.tables, b, i) {}
  }

  /** A good row is settled by being stored, and counts as a conflict exactly when it is somebody
      else's; a faulty one is counted as skipped; any other row counts nothing. */
  lemma StoringCounts(p: Progress, user: User, identity: Identity, g: Uuid, row: Row)
    requires row.id.Some? && row.id.value > 0 && !Breaks(row, identity)
    ensures var q := StoreRow(p, user, identity, g, row);
      && (GoodRow(row, identity) ==> IsStored(q.tables, row.id.value, identity))
      && q.conflicts == p.conflicts + (if TakenRow(q.tables, row, user, identity) then 1 else 0)
      && q.skipped == p.skipped + (if SkippedRow(row, identity) then 1 else 0)
  {
    var q, b := StoreRow(p, user, identity, g, row), row.id.value;
    forall i ensures Behind(q.tables, b, i) <==> Behind(p.tables, b, i) {}
    if IntentOf(p.tables, b).Some? { assert Behind(p.tables, b, IntentOf(p.tables, b).value); }
  }

  lemma OneMore(before: set<nat>, after: set<nat>, n: nat, last: bool)
    requires n !in before && forall k :: k in after <==> k in before || (k == n && last)
    ensures |after| == |before| + if last then 1 else 0
  {
    assert after == if last then before + {n} else before;
  }

  lemma OneMoreRow(t: Tables, t': Tables, before: seq<Row>, row: Row, user: User, identity: Identity)
    requires forall k | 0 <= k < |before| :: TakenRow(t', before[k], user, identity) <==> TakenRow(t, before[k], user, identity)
    ensures |TakenRows(t', before + [row], user, identity)| == |TakenRows(t, before, user, identity)| + if TakenRow(t', row, user, identity) then 1 else 0
  {
    var all, n := before + [row], |before|;
    assert all[n] == row && forall k | 0 <= k < n :: all[k] == before[k];
    OneMore(TakenRows(t, before, user, identity), TakenRows(t', all, user, identity), n, TakenRow(t', row, user, identity));
  }

  lemma OneMoreSkipped(before: seq<Row>, row: Row, identity: Identity)
    ensures |SkippedRows(before + [row], identity)| == |SkippedRows(before, identity)| + if SkippedRow(row, identity) then 1 else 0
  {
    var all, n := before + [row], |before|;
    assert all[n] == row && forall k | 0 <= k < n :: all[k] == before[k];
    OneMore(SkippedRows(before, identity), SkippedRows(all, identity), n, SkippedRow(row, identity));
  }

  lemma {:induction false} RowsCount(p: Progress, user: User, identity: Identity, g: Uuid, rows: seq<Row>)
    requires forall j | 0 <= j < |rows| :: rows[j].id.Some? && rows[j].id.value > 0 && !Breaks(rows[j], identity)
    ensures var q := StoreAll(p, user, identity, g, rows);
      && AllStored(q.tables, rows, identity)
      && q.conflicts == p.conflicts + |TakenRows(q.tables, rows, user, identity)|
      && q.skipped == p.skipped + |SkippedRows(rows, identity)|
  {
    if rows == [] {
      assert TakenRows(p.tables, rows, user, identity) == {} && SkippedRows(rows, identity) == {};
    } else {
      var before, last := rows[..|rows| - 1], rows[|rows| - 1];
      RowsCount(p, user, identity, g, before);
      var m := StoreAll(p, user, identity, g, before);
      var q := StoreRow(m, user, identity, g, last);
      StoringCounts(m, user, identity, g, last);
      forall k | 0 <= k < |before|
        ensures GoodRow(before[k], identity) ==> IsStored(q.tables, before[k].id.value, identity)
        ensures TakenRow(q.tables, before[k], user, identity) <==> TakenRow(m.tables, before[k], user, identity)
      {
        if GoodRow(before[k], identity) { StoringKeeps(m, user, identity, g, last, before[k].id.value); }
      }
      OneMoreRow(m.tables, q.tables, before, last, user, identity);
      OneMoreSkipped(before, last, identity);
      assert before + [last] == rows;
    }
  }

  /** After a committed page every good row with the worker's pair is settled; the job counts the
      faulty ones as skipped and those that are somebody else's as conflicts. */
  lemma PageCounts(w: World, worker: Worker, now: Time, reply: Reply, identity: Option<Identity>)
    requires worker.user in w.jobs && Finish(w, worker, now, reply, identity).1.Committed?
    ensures reply.Rows?
    ensures var (job, w') := (w.jobs[worker.user], Finish(w, worker, now, reply, identity).0);
      && worker.user in w'.jobs
      && w'.jobs[worker.user].conflicts == job.conflicts + |TakenRows(w'.tables, reply.rows, worker.user, worker.identity)|
      && w'.jobs[worker.user].skipped == job.skipped + |SkippedRows(reply.rows, worker.identity)|
      && AllStored(w'.tables, reply.rows, worker.identity)
  {
    var job := w.jobs[worker.user];
    var start := Progress(w.tables, job.added, job.conflicts, job.skipped, {}, {});
    RowsCount(start, worker.user, worker.identity, worker.generation, reply.rows);
    var p := Stored(w, worker, reply.rows);
    if reply.rows == [] {
      assert TakenRows(p.tables, [], worker.user, worker.identity) == {};
      assert TakenRows(Finish(w, worker, now, reply, identity).0.tables, [], worker.user, worker.identity) == {};
    }
  }

  // ----- When a transaction goes through -----

  /** An import starts exactly for a verified guest without an import still at work in the last
      five minutes and without any asked for in the last one. */
  lemma StartExactly(w: World, user: User, now: Time, g: Uuid, identity: Option<Identity>)
    ensures Start(w, user, now, g, identity).1.Started? <==>
      && identity.Some?
      && (user in w.jobs ==>
            && !((w.jobs[user].status == Queued || w.jobs[user].status == Running) && w.jobs[user].updatedAt > now - 300)
            && w.jobs[user].requestedAt <= now - 60)
    ensures Start(w, user, now, g, identity).1.Started? ==>
      var job := Start(w, user, now, g, identity).0.jobs[user];
      && job.generation == g && job.digest == identity.value.digest && job.status == Queued && job.requestedAt == now && job.updatedAt == now
      && job.cursor.None? && job.seen == [] && job.pages == 0 && job.conflicts == 0 && job.skipped == 0 && job.lease.None?
  {
  }

  /** A worker gets the lease exactly of a current, unfinished job that no other lease holds, for the
      identity the job was started with; it holds it for forty-five seconds. */
  lemma LeaseExactly(w: World, user: User, g: Uuid, now: Time, lease: Uuid, identity: Option<Identity>)
    ensures Lease(w, user, g, now, lease, identity).1.Leased? <==>
      && user in w.jobs && w.jobs[user].generation == g && (w.jobs[user].status == Queued || w.jobs[user].status == Running)
      && (w.jobs[user].lockedUntil.Some? ==> w.jobs[user].lockedUntil.value <= now)
      && identity.Some? && identity.value.digest == w.jobs[user].digest
    ensures Lease(w, user, g, now, lease, identity).1.Leased? ==>
      var (w', worker) := (Lease(w, user, g, now, lease, identity).0, Lease(w, user, g, now, lease, identity).1.worker);
      && worker == Worker(user, g, lease, w.jobs[user].cursor, identity.value) && lease in w'.workers && w'.workers[lease] == worker
      && w'.jobs == w.jobs[user := w.jobs[user].(status := Running, lease := Some(lease), lockedUntil := Some(now + 45), updatedAt := now)]
    ensures Lease(w, user, g, now, lease, identity).1.StoppedPartial? ==>
      && user in w.jobs && (identity.None? || identity.value.digest != w.jobs[user].digest)
      && Lease(w, user, g, now, lease, identity).0.jobs[user].status == Partial
  {
  }

  /** At most a hundred rows, each with a positive id of its own. */
  predicate ProperPage(rows: seq<Row>)
  {
    && |rows| <= 100 && (forall k | 0 <= k < |rows| :: rows[k].id.Some? && rows[k].id.value > 0)
    && forall j, k | 0 <= j < k < |rows| :: rows[j].id != rows[k].id
  }

  /** A page is committed exactly when its worker still holds the job, the user's identity is still
      the worker's, the reply is proper, its last row is no cursor met before, and no row with the
      pair breaks while it is stored. */
  lemma FinishExactly(w: World, worker: Worker, now: Time, reply: Reply, identity: Option<Identity>)
    requires worker.user in w.jobs
    ensures Finish(w, worker, now, reply, identity).1.Committed? <==>
      && reply.Rows? && ProperPage(reply.rows)
      && w.jobs[worker.user].lease == Some(worker.lease) && w.jobs[worker.user].generation == worker.generation
      && identity.Some? && identity.value.digest == worker.identity.digest
      && (reply.rows != [] ==> reply.rows[|reply.rows| - 1].id.value !in w.jobs[worker.user].seen)
      && forall k | 0 <= k < |reply.rows| :: !(Pair(reply.rows[k], worker.identity) && reply.rows[k].fault.Unexpected?)
    ensures !Finish(w, worker, now, reply, identity).1.Committed? ==>
      var job := w.jobs[worker.user];
      Finish(w, worker, now, reply, identity).0 == w
      || (job.lease == Some(worker.lease) && job.generation == worker.generation
          && Finish(w, worker, now, reply, identity).0
             == w.(jobs := w.jobs[worker.user := job.(status := Partial, error := SourceUnavailable, lease := None, lockedUntil := None, updatedAt := now)]))
  {
  }

  /** A committed page completes the job if it is empty, stops it at the thousandth page, and
      otherwise queues the next one with its last row as the cursor. */
  lemma CommitTurnsJob(w: World, worker: Worker, now: Time, reply: Reply, identity: Option<Identity>)
    requires worker.user in w.jobs && Finish(w, worker, now, reply, identity).1.Committed?
    ensures reply.Rows? && ProperPage(reply.rows)
    ensures var (w', job) := (Finish(w, worker, now, reply, identity).0, w.jobs[worker.user]);
      worker.user in w'.jobs && var job' := w'.jobs[worker.user];
      && job'.pages == job.pages + 1 && job'.lease.None? && job'.lockedUntil.None? && job'.generation == job.generation && job'.updatedAt == now
      && (if reply.rows == [] then job'.status == Complete
          else if job.pages + 1 >= 1000 then job'.status == Partial && job'.error == PageLimit
          else job'.status == Queued && job'.cursor == Some(reply.rows[|reply.rows| - 1].id.value)
               && job'.seen == job.seen + [reply.rows[|reply.rows| - 1].id.value])
  {
  }

  /** A paid stay gives its request to the member exactly when nobody has it, it is an active direct
      booking, its number is an active member's, and something is due and all of it paid. */
  lemma AttachExactly(w: World, i: IntentId, stay: PaidStay)
    requires i in w.tables.intents
    ensures Attach(w, i, stay) != w <==>
      w.tables.intents[i].customer.None? && stay.inScope && stay.owner.Some? && stay.due > 0 && stay.paid >= stay.due
    ensures Attach(w, i, stay) != w ==>
      Attach(w, i, stay).tables == w.tables.(intents := w.tables.intents[i := w.tables.intents[i].(customer := stay.owner)])
  {
  }
}
