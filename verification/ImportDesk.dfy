/** The import tables as they are updated in place by starts and page workers. */
module ImportDesk {
  import opened Wrappers
  import opened BookingHistory
  import opened ImportProtocol

  class Desk {
    var jobs: map<User, Job>
    var intents: map<IntentId, Intent>
    var reservations: map<BookingId, Option<IntentId>>
    var history: map<BookingId, Seen>
    /** The same tables with everything issued, committed and linked so far. */
    ghost var world: World

    /** The ghost world is these tables, and it satisfies everything the protocol keeps. */
    ghost predicate Valid()
      reads this
    {
      Mirrored() && Invariant(world)
    }

    ghost predicate Mirrored()
      reads this
    {
      world.jobs == jobs && world.tables == Tables(intents, reservations, history)
    }

    constructor (intents: map<IntentId, Intent>, reservations: map<BookingId, Option<IntentId>>)
      ensures Valid() && jobs == map[] && history == map[]
      ensures this.intents == intents && this.reservations == reservations
    {
      jobs, history := map[], map[];
      this.intents, this.reservations := intents, reservations;
      world := World(map[], Tables(intents, reservations, map[]), {}, map[], map[], [], map[]);
      new;
      EmptyKeeps(world);
    }

    /** Assigns the user's own unowned site bookings. */
    method ClaimLocal(user: User, identity: Identity) returns (count: nat)
      modifies this`intents
      ensures intents == ClaimAll(old(intents), user, identity)
      ensures count == |ClaimableIds(old(intents), identity)|
      ensures forall i | i in intents ::
        intents[i] == if ClaimedBy(old(intents)[i], identity) then old(intents)[i].(customer := Some(user)) else old(intents)[i]
    {
      count := 0;
      var rest := ClaimableIds(intents, identity);
      ghost var done: set<IntentId> := {};
      while rest != {}
        invariant rest !! done && rest + done == ClaimableIds(old(intents), identity)
        invariant count == |done|
        invariant intents.Keys == old(intents).Keys
        invariant forall i | i in intents :: intents[i] == if i in done then old(intents)[i].(customer := Some(user)) else old(intents)[i]
      {
        var i :| i in rest;
        if intents[i].customer.None? {
          intents := intents[i := intents[i].(customer := Some(user))];
          count := count + 1;
        }
        rest, done := rest - {i}, done + {i};
      }
    }

    /** Opens a new generation, which overtakes every worker the user still has out; an owner
        once set stays. */
    method StartImport(user: User, now: Time, generation: Uuid, identity: Option<Identity>) returns (outcome: Outcome)
      requires Valid() && generation !in world.issued
      modifies this
      ensures Valid() && (world, outcome) == Start(old(world), user, now, generation, identity)
      ensures outcome.Started? ==> user in jobs && jobs[user].generation == generation && PagesOf(world.commits, generation) == []
      ensures outcome.Started? ==> AllOvertaken(old(world), world, user)
      ensures OwnersKept(old(world).tables, world.tables)
      ensures !outcome.Started? ==> world == old(world)
    {
      StartPromise(world, user, now, generation, identity);
      ghost var target := Start(world, user, now, generation, identity).0;
      if identity.None? { return VerificationRequired; }
      if user in jobs && jobs[user].Active() && jobs[user].updatedAt > now - 300 { return AlreadyRunning; }
      if user in jobs && jobs[user].requestedAt > now - 60 { return Cooldown; }
      var count := ClaimLocal(user, identity.value);
      var job := Job(generation, identity.value.digest, Queued, None, [], 0, count, 0, 0, None, None, NoError, now, now);
      jobs := jobs[user := job];
      world := target;
      return Started;
    }

    /** The first half of a page: the worker that gets the lease is the only one that may still
        write, and it carries the cursor the generation's last page left. */
    method LeasePage(user: User, generation: Uuid, now: Time, lease: Uuid, identity: Option<Identity>) returns (outcome: Outcome)
      requires Valid() && lease !in world.issued
      modifies this
      ensures Valid() && (world, outcome) == Lease(old(world), user, generation, now, lease, identity)
      ensures outcome.Leased? ==> user in jobs && Holds(jobs[user], outcome.worker) && AllOvertaken(old(world), world, user)
      ensures outcome.Leased? ==> outcome.worker.cursor == NextCursor(PagesOf(world.commits, generation))
      ensures world.tables == old(world).tables && world.commits == old(world).commits
      ensures !outcome.Leased? ==> world.workers == old(world).workers
    {
      LeasePromise(world, user, generation, now, lease, identity);
      outcome := TakeLease(user, generation, now, lease, identity);
    }

    /** Takes the lease of the current generation unless another stands. */
    method TakeLease(user: User, generation: Uuid, now: Time, lease: Uuid, identity: Option<Identity>) returns (outcome: Outcome)
      requires Mirrored()
      modifies this
      ensures Mirrored() && (world, outcome) == Lease(old(world), user, generation, now, lease, identity)
    {
      ghost var target := Lease(world, user, generation, now, lease, identity).0;
      if user !in jobs { return Obsolete; }
      var job := jobs[user];
      if job.generation != generation || !job.Active() { return Obsolete; }
      if job.lockedUntil.Some? && job.lockedUntil.value > now { return Busy; }
      if identity.None? || identity.value.digest != job.digest {
        jobs := jobs[user := job.(status := Partial, error := IdentityChanged, updatedAt := now)];
        world := target;
        return StoppedPartial;
      }
      jobs := jobs[user := job.(lease := Some(lease), lockedUntil := Some(now + 45), status := Running, updatedAt := now)];
      world := target;
      return Leased(Worker(user, generation, lease, job.cursor, identity.value));
    }

    /** A failed page: the worker can never write again, nothing it fetched is kept, and if it
        had been overtaken already nothing changes at all. */
    method FailPage(worker: Worker, now: Time) returns (outcome: Outcome)
      requires Valid() && worker.lease in world.workers && world.workers[worker.lease] == worker
      modifies this
      ensures Valid() && (world, outcome) == Fail(old(world), worker, now)
      ensures Overtaken(world, worker.lease) && world.tables == old(world).tables && world.commits == old(world).commits
      ensures old(Overtaken(world, worker.lease)) ==> world == old(world)
      ensures forall u | u in old(jobs) && u != worker.user :: u in jobs && jobs[u] == old(jobs)[u]
    {
      FailPromise(world, worker, now);
      outcome := ReleaseJob(worker, now);
    }

    /** Releases the job if the worker still holds it. */
    method ReleaseJob(worker: Worker, now: Time) returns (outcome: Outcome)
      requires Mirrored()
      modifies this
      ensures Mirrored() && (world, outcome) == Fail(old(world), worker, now)
    {
      ghost var target := Fail(world, worker, now).0;
      if worker.user in jobs && Holds(jobs[worker.user], worker) {
        jobs := jobs[worker.user := jobs[worker.user].(
          status := Partial, error := SourceUnavailable, lease := None, lockedUntil := None, updatedAt := now)];
        world := target;
      }
      return StoppedPartial;
    }

    /** Stores one matched booking: as the owner of the site request, or as a recovered booking. */
    method Store(user: User, identity: Identity, generation: Uuid, b: BookingId, ghost p: Progress)
        returns (added: nat, conflict: nat, ghost q: Progress)
      requires p.tables == Tables(intents, reservations, history)
      modifies this`intents, this`history
      ensures q == StoreMatch(p, user, identity, generation, b)
      ensures q.tables == Tables(intents, reservations, history)
      ensures q.added == p.added + added && q.conflicts == p.conflicts + conflict && q.skipped == p.skipped
      ensures intents.Keys == old(intents).Keys && forall i | i in intents && intents[i] != old(intents)[i] ::
        && b in reservations && reservations[b] == Some(i) && intents[i] == old(intents)[i].(customer := Some(user))
        && old(intents)[i].customer.None? && intents[i].email == Some(identity.email) && intents[i].phone == Some(identity.phone)
    {
      q := StoreMatch(p, user, identity, generation, b);
      var i: Option<IntentId> := None;
      if b in reservations && reservations[b].Some? && reservations[b].value in intents {
        i := reservations[b];
      }
      if i.Some? && intents[i.value].customer.Some? {
        return 0, if intents[i.value].customer.value != user then 1 else 0, q;
      }
      if i.Some? && Matches(intents[i.value].email, intents[i.value].phone, identity) {
        intents := intents[i.value := intents[i.value].(customer := Some(user))];
        return 1, 0, q;
      }
      var created := b !in history;
      if created {
        history := history[b := Seen(user, identity.digest, generation, true)];
      }
      if history[b].user != user { return 0, 1, q; }
      history := history[b := Seen(user, identity.digest, generation, true)];
      return if created then 1 else 0, 0, q;
    }

    /** Stores the rows of a page one by one; a row that breaks after writing is undone alone.
        When a row breaks the page, everything is as before the call. */
    method StoreRows(worker: Worker, rows: seq<Row>, job: Job) returns (r: Option<Job>)
      requires forall j | 0 <= j < |rows| :: rows[j].id.Some? && rows[j].id.value > 0
      modifies this`intents, this`history
      ensures r.None? <==> exists j :: 0 <= j < |rows| && Breaks(rows[j], worker.identity)
      ensures r.None? ==> intents == old(intents) && history == old(history)
      ensures r.Some? ==>
        var start := Progress(old(Tables(intents, reservations, history)), job.added, job.conflicts, job.skipped, {}, {});
        var end := StoreAll(start, worker.user, worker.identity, worker.generation, rows);
        && Tables(intents, reservations, history) == end.tables
        && r.value == job.(added := end.added, conflicts := end.conflicts, skipped := end.skipped)
    {
      var savedIntents, savedHistory := intents, history;
      var counted := job;
      ghost var start := Progress(Tables(intents, reservations, history), job.added, job.conflicts, job.skipped, {}, {});
      ghost var p := start;
      var k := 0;
      while k < |rows|
        invariant 0 <= k <= |rows|
        invariant forall j | 0 <= j < k :: !Breaks(rows[j], worker.identity)
        invariant p == StoreAll(start, worker.user, worker.identity, worker.generation, rows[..k])
        invariant p.tables == Tables(intents, reservations, history)
        invariant counted == job.(added := p.added, conflicts := p.conflicts, skipped := p.skipped)
      {
        var row := rows[k];
        assert rows[..k + 1][..k] == rows[..k];
        if Matches(row.email, row.phone, worker.identity) {
          if row.fault.Unexpected? {
            intents, history := savedIntents, savedHistory;
            return None;
          }
          if row.fault.Malformed? {
            counted := counted.(skipped := counted.skipped + 1);
          } else {
            var pointIntents, pointHistory := intents, history;
            var added, conflict;
            ghost var q;
            added, conflict, q := Store(worker.user, worker.identity, worker.generation, row.id.value, p);
            if row.fault.Overflow? {
              intents, history := pointIntents, pointHistory;
              counted := counted.(skipped := counted.skipped + 1);
            } else {
              counted := counted.(added := counted.added + added, conflicts := counted.conflicts + conflict);
            }
          }
        }
        p := StoreRow(p, worker.user, worker.identity, worker.generation, row);
        k := k + 1;
      }
      assert rows[..k] == rows;
      return Some(counted);
    }

    /** Everything this generation did not see disappears from the user's list. */
    method Hide(user: User, generation: Uuid)
      modifies this`history
      ensures history == HideUnseen(old(history), user, generation)
      ensures history.Keys == old(history).Keys && forall b | b in history ::
        history[b] == if old(history)[b].user == user && old(history)[b].generation != generation then old(history)[b].(visible := false)
                      else old(history)[b]
    {
      var rest := history.Keys;
      while rest != {}
        invariant rest <= history.Keys == old(history).Keys
        invariant forall b | b in history ::
          history[b] == if b in rest then old(history)[b] else HideUnseen(old(history), user, generation)[b]
      {
        var b :| b in rest;
        if history[b].user == user && history[b].generation != generation {
          history := history[b := history[b].(visible := false)];
        }
        rest := rest - {b};
      }
    }

    /** The second half of a page: commit it right after the generation's last page, refuse it
        as stale, or give up; in any case the worker is done. */
    method FinishPage(worker: Worker, now: Time, reply: Reply, identity: Option<Identity>) returns (outcome: Outcome)
      requires Valid() && worker.lease in world.workers && world.workers[worker.lease] == worker && worker.user in jobs
      modifies this
      ensures Valid() && (world, outcome) == Finish(old(world), worker, now, reply, identity)
      ensures outcome.Committed? ==> CommitsNext(old(world), world, worker)
      ensures OwnersKept(old(world).tables, world.tables)
      ensures Overtaken(world, worker.lease) && (old(Overtaken(world, worker.lease)) ==> world == old(world))
      ensures !outcome.Committed? ==> world.tables == old(world).tables && world.commits == old(world).commits
    {
      FinishPromise(world, worker, now, reply, identity);
      FinishOvertakes(world, worker, now, reply, identity);
      outcome := TryPage(worker, now, reply, identity);
    }

    /** Checks the fetched page against the job and writes it, or fails the job. */
    method TryPage(worker: Worker, now: Time, reply: Reply, identity: Option<Identity>) returns (outcome: Outcome)
      requires Mirrored() && worker.user in jobs
      modifies this
      ensures Mirrored() && (world, outcome) == Finish(old(world), worker, now, reply, identity)
    {
      ghost var target := Finish(world, worker, now, reply, identity);
      if !Usable(reply) {
        outcome := ReleaseJob(worker, now);
        return;
      }
      var job, rows := jobs[worker.user], reply.rows;
      if !Holds(job, worker) { return Obsolete; }
      if identity.None? || identity.value.digest != worker.identity.digest {
        outcome := ReleaseJob(worker, now);
        return;
      }
      if rows != [] && rows[|rows| - 1].id.value in job.seen {
        outcome := ReleaseJob(worker, now);
        return;
      }
      var counted := StoreRows(worker, rows, job);
      if counted.None? {
        outcome := ReleaseJob(worker, now);
        return;
      }
      job := counted.value.(pages := job.pages + 1, lease := None, lockedUntil := None, updatedAt := now);
      if rows == [] {
        job := job.(status := Complete);
        Hide(worker.user, worker.generation);
      } else if job.pages >= MAX_PAGES {
        job := job.(status := Partial, error := PageLimit);
      } else {
        job := job.(cursor := Some(rows[|rows| - 1].id.value), seen := job.seen + [rows[|rows| - 1].id.value], status := Queued);
      }
      jobs := jobs[worker.user := job];
      world := target.0;
      return Committed(job.status);
    }

    /** The queue refused the task of a generation: that generation is no longer active, a
        newer one is left alone, and nothing already imported is touched. */
    method DispatchFailed(user: User, generation: Uuid, now: Time)
      requires Valid()
      modifies this
      ensures Valid() && world == DispatchFails(old(world), user, generation, now)
      ensures user in jobs && jobs[user].generation == generation ==> !jobs[user].Active()
      ensures user in old(jobs) && old(jobs)[user].generation == generation && old(jobs)[user].status in {Queued, Running} ==>
        jobs == old(jobs)[user := old(jobs)[user].(status := Partial, error := QueueUnavailable, updatedAt := now)]
      ensures !(user in old(jobs) && old(jobs)[user].generation == generation && old(jobs)[user].status in {Queued, Running}) ==>
        world == old(world)
      ensures world.tables == old(world).tables && world.commits == old(world).commits
      ensures forall u | u in old(jobs) && u != user :: u in jobs && jobs[u] == old(jobs)[u]
    {
      DispatchKeeps(world, user, generation, now);
      world := DispatchFails(world, user, generation, now);
      if user in jobs && jobs[user].generation == generation && jobs[user].Active() {
        jobs := jobs[user := jobs[user].(status := Partial, error := QueueUnavailable, updatedAt := now)];
      }
    }

    /** A paid website stay finds its member without a login: only a request nobody owned gets
        an owner, and every other owner stays. */
    method AttachPaid(i: IntentId, stay: PaidStay) returns (attached: bool)
      requires Valid() && i in intents
      modifies this
      ensures Valid() && world == Attach(old(world), i, stay)
      ensures attached ==> old(intents)[i].customer.None? && intents[i].customer == stay.owner && stay.owner.Some? && stay.paid >= stay.due > 0
      ensures OwnersKept(old(world).tables, world.tables)
      ensures !attached ==> world == old(world)
      ensures history == old(history) && forall k | k in old(intents) && k != i :: k in intents && intents[k] == old(intents)[k]
    {
      AttachKeeps(world, i, stay);
      ghost var target := Attach(world, i, stay);
      if intents[i].customer.Some? || !stay.inScope || stay.owner.None? { return false; }
      if stay.due <= 0 || stay.paid < stay.due { return false; }
      intents := intents[i := intents[i].(customer := stay.owner)];
      world := target;
      assert intents[i] != old(intents)[i];
      return true;
    }
  }
}
