/** The import job as a protocol between starts, workers that may be late or overlap,
    and the clock. Every step is one transaction of the website. */
module ImportProtocol {
  import opened Wrappers
  import opened BookingHistory

  /** A page request in flight: what the worker took with it when it leased the job. */
  datatype Worker = Worker(user: User, generation: Uuid, lease: Uuid, cursor: Option<nat>, identity: Identity)

  /** One committed page: the cursor it was fetched with and the last id it held. */
  datatype Commit = Commit(
    user: User, generation: Uuid, lease: Uuid, cursor: Option<nat>, last: Option<nat>, digest: string, stored: set<BookingId>)

  /** The tables, and the history of what was issued, leased, committed and linked. */
  datatype World = World(
    jobs: map<User, Job>,
    tables: Tables,
    issued: set<Uuid>,
    owners: map<Uuid, User>,
    workers: map<Uuid, Worker>,
    commits: seq<Commit>,
    links: map<Record, Uuid>)

  datatype Outcome =
    | VerificationRequired | AlreadyRunning | Cooldown | Started
    | Obsolete | Busy | StoppedPartial | Leased(worker: Worker)
    | Committed(status: Status)

  function AsRecords(ids: set<IntentId>): set<Record> { set i | i in ids :: OfIntent(i) }

  /** The log of linked records after generation g linked some more. */
  function Marked(links: map<Record, Uuid>, records: set<Record>, g: Uuid): map<Record, Uuid>
  {
    links + map r | r in records :: g
  }

  // ----- Steps -----

  function Start(w: World, user: User, now: Time, g: Uuid, identity: Option<Identity>): (World, Outcome)
  {
    if identity.None? then (w, VerificationRequired)
    else if user in w.jobs && w.jobs[user].Active() && w.jobs[user].updatedAt > now - 300 then (w, AlreadyRunning)
    else if user in w.jobs && w.jobs[user].requestedAt > now - 60 then (w, Cooldown)
    else
      var ids := ClaimableIds(w.tables.intents, identity.value);
      var job := Job(g, identity.value.digest, Queued, None, [], 0, |ids|, 0, 0, None, None, NoError, now, now);
      (w.(jobs := w.jobs[user := job],
          tables := w.tables.(intents := ClaimAll(w.tables.intents, user, identity.value)),
          issued := w.issued + {g},
          owners := w.owners[g := user],
          links := Marked(w.links, AsRecords(ids), g)),
       Started)
  }

  function Lease(w: World, user: User, g: Uuid, now: Time, lease: Uuid, identity: Option<Identity>): (World, Outcome)
  {
    if user !in w.jobs then (w, Obsolete)
    else
      var job := w.jobs[user];
      if job.generation != g || !job.Active() then (w, Obsolete)
      else if job.lockedUntil.Some? && job.lockedUntil.value > now then (w, Busy)
      else if identity.None? || identity.value.digest != job.digest then
        (w.(jobs := w.jobs[user := job.(status := Partial, error := IdentityChanged, updatedAt := now)]), StoppedPartial)
      else
        var worker := Worker(user, g, lease, job.cursor, identity.value);
        (w.(jobs := w.jobs[user := job.(lease := Some(lease), lockedUntil := Some(now + 45), status := Running, updatedAt := now)],
            issued := w.issued + {lease},
            workers := w.workers[lease := worker]),
         Leased(worker))
  }

  predicate Holds(job: Job, worker: Worker)
  {
    job.lease == Some(worker.lease) && job.generation == worker.generation
  }

  /** A failed page releases the job, if the worker still holds it. */
  function Fail(w: World, worker: Worker, now: Time): (World, Outcome)
  {
    if worker.user in w.jobs && Holds(w.jobs[worker.user], worker) then
      (w.(jobs := w.jobs[worker.user := w.jobs[worker.user].(
            status := Partial, error := SourceUnavailable, lease := None, lockedUntil := None, updatedAt := now)]),
       StoppedPartial)
    else (w, StoppedPartial)
  }

  predicate Acceptable(job: Job, worker: Worker, rows: seq<Row>, identity: Option<Identity>)
    requires forall j | 0 <= j < |rows| :: rows[j].id.Some? && rows[j].id.value > 0
  {
    && identity.Some? && identity.value.digest == worker.identity.digest
    && (rows != [] ==> rows[|rows| - 1].id.value !in job.seen)
    && forall j | 0 <= j < |rows| :: !Breaks(rows[j], worker.identity)
  }

  function HideUnseen(history: map<BookingId, Seen>, user: User, g: Uuid): map<BookingId, Seen>
  {
    map b | b in history ::
      if history[b].user == user && history[b].generation != g then history[b].(visible := false) else history[b]
  }

  function Turned(job: Job, rows: seq<Row>, p: Progress, now: Time): Job
    requires forall j | 0 <= j < |rows| :: rows[j].id.Some? && rows[j].id.value > 0
  {
    var job' := job.(added := p.added, conflicts := p.conflicts, skipped := p.skipped,
                     pages := job.pages + 1, lease := None, lockedUntil := None, updatedAt := now);
    if rows == [] then job'.(status := Complete)
    else if job'.pages >= MAX_PAGES then job'.(status := Partial, error := PageLimit)
    else
      var last := rows[|rows| - 1].id.value;
      job'.(cursor := Some(last), seen := job.seen + [last], status := Queued)
  }

  ghost function Stored(w: World, worker: Worker, rows: seq<Row>): Progress
    requires worker.user in w.jobs
    requires forall j | 0 <= j < |rows| :: rows[j].id.Some? && rows[j].id.value > 0
  {
    var job := w.jobs[worker.user];
    StoreAll(Progress(w.tables, job.added, job.conflicts, job.skipped, {}, {}),
             worker.user, worker.identity, worker.generation, rows)
  }

  /** The page was fetched; it is committed, or refused as stale, or the job fails. */
  ghost function Finish(w: World, worker: Worker, now: Time, reply: Reply, identity: Option<Identity>): (World, Outcome)
    requires worker.user in w.jobs
  {
    if !Usable(reply) then Fail(w, worker, now)
    else
      var job, rows := w.jobs[worker.user], reply.rows;
      if !Holds(job, worker) then (w, Obsolete)
      else if !Acceptable(job, worker, rows, identity) then Fail(w, worker, now)
      else
        (WithPage(w, worker, now, rows), Committed(WithPage(w, worker, now, rows).jobs[worker.user].status))
  }

  function PageCommit(worker: Worker, rows: seq<Row>, stored: set<BookingId>): Commit
    requires forall j | 0 <= j < |rows| :: rows[j].id.Some? && rows[j].id.value > 0
  {
    Commit(worker.user, worker.generation, worker.lease, worker.cursor,
           if rows == [] then None else Some(rows[|rows| - 1].id.value), worker.identity.digest, stored)
  }

  /** Rows, counters and cursor change together; an empty page completes the job and hides
      what this generation did not see. */
  ghost function WithPage(w: World, worker: Worker, now: Time, rows: seq<Row>): (w': World)
    requires worker.user in w.jobs
    requires forall j | 0 <= j < |rows| :: rows[j].id.Some? && rows[j].id.value > 0
    ensures worker.user in w'.jobs
  {
    var p := Stored(w, worker, rows);
    w.(jobs := w.jobs[worker.user := Turned(w.jobs[worker.user], rows, p, now)],
       tables := if rows == [] then p.tables.(history := HideUnseen(p.tables.history, worker.user, worker.generation)) else p.tables,
       commits := w.commits + [PageCommit(worker, rows, p.stored)],
       links := Marked(w.links, p.linked, worker.generation))
  }

  /** The queue refused the task of generation g. */
  function DispatchFails(w: World, user: User, g: Uuid, now: Time): World
  {
    if user in w.jobs && w.jobs[user].generation == g && w.jobs[user].Active() then
      w.(jobs := w.jobs[user := w.jobs[user].(status := Partial, error := QueueUnavailable, updatedAt := now)])
    else w
  }

  /** A paid website stay: whether it is a new active direct booking in scope, the active
      member whose verified mobile it names, and the riyals paid and due. */
  datatype PaidStay = PaidStay(inScope: bool, owner: Option<User>, paid: int, due: int)

  /** A fully paid stay whose request has no owner goes to the member with its mobile. */
  function Attach(w: World, i: IntentId, stay: PaidStay): World
  {
    if i in w.tables.intents && w.tables.intents[i].customer.None?
       && stay.inScope && stay.owner.Some? && stay.due > 0 && stay.paid >= stay.due
    then w.(tables := w.tables.(intents := w.tables.intents[i := w.tables.intents[i].(customer := stay.owner)]))
    else w
  }

  datatype Step =
    | StartStep(user: User, now: Time, generation: Uuid, identity: Option<Identity>)
    | LeaseStep(user: User, generation: Uuid, now: Time, lease: Uuid, identity: Option<Identity>)
    | FinishStep(lease: Uuid, now: Time, reply: Reply, identity: Option<Identity>)
    | DispatchFailsStep(user: User, generation: Uuid, now: Time)
    | AttachStep(intent: IntentId, stay: PaidStay)

  /** Identifiers are fresh; only a leased worker finishes. */
  ghost predicate Enabled(w: World, step: Step)
  {
    match step
    case StartStep(_, _, g, _) => g !in w.issued
    case LeaseStep(_, _, _, lease, _) => lease !in w.issued
    case FinishStep(lease, _, _, _) => lease in w.workers && w.workers[lease].user in w.jobs
    case DispatchFailsStep(_, _, _) => true
    case AttachStep(_, _) => true
  }

  ghost function Apply(w: World, step: Step): World
    requires Enabled(w, step)
  {
    match step
    case StartStep(user, now, g, identity) => Start(w, user, now, g, identity).0
    case LeaseStep(user, g, now, lease, identity) => Lease(w, user, g, now, lease, identity).0
    case FinishStep(lease, now, reply, identity) => Finish(w, w.workers[lease], now, reply, identity).0
    case DispatchFailsStep(user, g, now) => DispatchFails(w, user, g, now)
    case AttachStep(i, stay) => Attach(w, i, stay)
  }

  ghost predicate Run(states: seq<World>, steps: seq<Step>)
  {
    && |states| == |steps| + 1
    && states[0].jobs == map[] && states[0].tables.history == map[] && states[0].issued == {}
    && states[0].owners == map[] && states[0].workers == map[] && states[0].commits == [] && states[0].links == map[]
    && forall j | 0 <= j < |steps| :: Enabled(states[j], steps[j]) && states[j + 1] == Apply(states[j], steps[j])
  }

  // ----- The pages of one generation -----

  ghost function PagesOf(commits: seq<Commit>, g: Uuid): seq<Commit>
  {
    if commits == [] then []
    else
      var last := commits[|commits| - 1];
      PagesOf(commits[..|commits| - 1], g) + (if last.generation == g then [last] else [])
  }

  lemma PagesOfMore(commits: seq<Commit>, c: Commit, g: Uuid)
    ensures PagesOf(commits + [c], g) == if c.generation == g then PagesOf(commits, g) + [c] else PagesOf(commits, g)
  {
  }

  /** A single unbroken chain: it begins without a cursor, every page was fetched with the
      cursor the page before left, no cursor comes back, one identity, bounded length. */
  ghost predicate Chained(pages: seq<Commit>)
  {
    && |pages| <= MAX_PAGES
    && (pages != [] ==> pages[0].cursor.None?)
    && (forall k | 0 <= k < |pages| - 1 :: pages[k].last.Some? && pages[k + 1].cursor == pages[k].last)
    && (forall j, k | 0 <= j < k < |pages| :: pages[j].last != pages[k].last)
    && (forall j, k | 0 <= j < k < |pages| :: pages[j].digest == pages[k].digest && pages[j].user == pages[k].user)
  }

  ghost function StoredIn(pages: seq<Commit>): set<BookingId>
  {
    if pages == [] then {} else StoredIn(pages[..|pages| - 1]) + pages[|pages| - 1].stored
  }

  // ----- Invariant -----

  /** A job agrees with the pages committed in its generation. */
  ghost predicate JobFits(user: User, job: Job, pages: seq<Commit>)
  {
    && |pages| == job.pages <= MAX_PAGES
    && (forall k | 0 <= k < |pages| :: pages[k].digest == job.digest && pages[k].user == user)
    && (forall j, k | 0 <= j < k < |job.seen| :: job.seen[j] != job.seen[k])
    && (Open(job) || (job.pages == |job.seen| + 1 && !job.Active() && job.lease.None?))
    && (forall k | 0 <= k < |job.seen| && k < |pages| :: pages[k].last == Some(job.seen[k]))
    && (Open(job) ==> job.pages < MAX_PAGES && job.cursor == if pages == [] then None else pages[|pages| - 1].last)
  }

  /** More pages may still be committed in this generation. */
  ghost predicate Open(job: Job) { job.pages == |job.seen| }

  /** The worker that holds a job carries its present cursor and identity, and has committed nothing. */
  ghost predicate LeaseFits(w: World, user: User)
    requires user in w.jobs
  {
    var job := w.jobs[user];
    job.lease.Some? ==>
      && Open(job)
      && job.lease.value in w.workers
      && var worker := w.workers[job.lease.value];
         && worker.user == user && worker.generation == job.generation && worker.cursor == job.cursor
         && worker.identity.digest == job.digest
         && forall k | 0 <= k < |w.commits| :: w.commits[k].lease != job.lease.value
  }

  ghost predicate Identifiers(w: World)
  {
    && w.owners.Keys <= w.issued && w.workers.Keys <= w.issued
    && (forall u | u in w.jobs :: w.jobs[u].generation in w.owners && w.owners[w.jobs[u].generation] == u)
    && (forall l | l in w.workers :: w.workers[l].lease == l && w.workers[l].user in w.jobs)
    && LogFits(w.commits, w.owners, w.workers)
    && HistoryFits(w.tables.history, w.owners)
    && LinksFit(w.links, w.owners, w.tables)
  }

  /** Committed pages name known generations and leases, and no lease committed twice. */
  ghost predicate LogFits(commits: seq<Commit>, owners: map<Uuid, User>, workers: map<Uuid, Worker>)
  {
    && (forall k | 0 <= k < |commits| :: commits[k].generation in owners && commits[k].lease in workers)
    && (forall j, k | 0 <= j < k < |commits| :: commits[j].lease != commits[k].lease)
  }

  ghost predicate HistoryFits(history: map<BookingId, Seen>, owners: map<Uuid, User>)
  {
    forall b | b in history :: history[b].generation in owners
  }

  ghost predicate LinksFit(links: map<Record, Uuid>, owners: map<Uuid, User>, t: Tables)
  {
    forall r | r in links :: links[r] in owners && Linked(t, r)
  }

  ghost function LinkedBy(links: map<Record, Uuid>, g: Uuid): set<Record>
  {
    set r | r in links && links[r] == g
  }

  /** Recovered bookings carry the job's generation exactly when this generation stored them, and then show. */
  ghost predicate SeenFits(history: map<BookingId, Seen>, user: User, g: Uuid, pages: seq<Commit>)
  {
    && (forall b :: b in StoredIn(pages) <==> b in history && history[b].generation == g)
    && (forall b | b in history && history[b].generation == g :: history[b].user == user && history[b].visible)
  }

  ghost predicate Invariant(w: World)
  {
    && Identifiers(w)
    && (forall g :: Chained(PagesOf(w.commits, g)))
    && forall u {:trigger UserFits(w, u)} | u in w.jobs :: UserFits(w, u)
  }

  ghost predicate UserFits(w: World, u: User)
    requires u in w.jobs
  {
    var g := w.jobs[u].generation;
    && JobFits(u, w.jobs[u], PagesOf(w.commits, g))
    && LeaseFits(w, u)
    && w.jobs[u].added == |LinkedBy(w.links, g)|
    && SeenFits(w.tables.history, u, g, PagesOf(w.commits, g))
  }

  /** Before the first start there is nothing to keep. */
  lemma EmptyKeeps(w: World)
    requires w.jobs == map[] && w.tables.history == map[] && w.issued == {}
    requires w.owners == map[] && w.workers == map[] && w.commits == [] && w.links == map[]
    ensures Invariant(w)
  {
  }

  // ----- Counting links -----

  lemma {:induction false} AsManyRecords(ids: set<IntentId>)
    ensures |AsRecords(ids)| == |ids|
  {
    if ids != {} {
      var i :| i in ids;
      AsManyRecords(ids - {i});
      assert AsRecords(ids) == AsRecords(ids - {i}) + {OfIntent(i)};
    }
  }

  lemma MarkedCounts(links: map<Record, Uuid>, records: set<Record>, g: Uuid)
    requires records !! links.Keys
    ensures |LinkedBy(Marked(links, records, g), g)| == |LinkedBy(links, g)| + |records|
    ensures forall h | h != g :: LinkedBy(Marked(links, records, g), h) == LinkedBy(links, h)
  {
    assert LinkedBy(Marked(links, records, g), g) == LinkedBy(links, g) + records;
  }

  // ----- Each step keeps the invariant -----

  lemma {:induction false} NoPagesYet(commits: seq<Commit>, g: Uuid)
    requires forall k | 0 <= k < |commits| :: commits[k].generation != g
    ensures PagesOf(commits, g) == []
  {
    if commits != [] {
      NoPagesYet(commits[..|commits| - 1], g);
    }
  }

  /** Everything a generation has achieved; leases, status and times may differ. */
  ghost predicate SameProgress(a: Job, b: Job)
  {
    && a.generation == b.generation && a.digest == b.digest && a.cursor == b.cursor && a.seen == b.seen
    && a.pages == b.pages && a.added == b.added
  }

  /** Only user's job was touched, without progress; leases may have been issued. */
  ghost predicate Touched(w: World, w': World, user: User)
  {
    && user in w.jobs && user in w'.jobs && SameProgress(w.jobs[user], w'.jobs[user])
    && w' == w.(jobs := w.jobs[user := w'.jobs[user]], issued := w'.issued, workers := w'.workers)
    && w.issued <= w'.issued
    && (forall l | l in w.workers :: l in w'.workers && w'.workers[l] == w.workers[l])
    && (forall l | l in w'.workers :: l in w'.issued && w'.workers[l].lease == l && w'.workers[l].user in w.jobs)
  }

  lemma TouchedIdentifiers(w: World, w': World, user: User)
    requires Identifiers(w) && Touched(w, w', user)
    ensures Identifiers(w')
  {
  }

  lemma TouchedKeeps(w: World, w': World, user: User)
    requires Invariant(w) && Touched(w, w', user)
    requires w'.jobs[user].Active() || w'.jobs[user].lease.Some? ==> Open(w'.jobs[user])
    requires LeaseFits(w', user)
    ensures Invariant(w')
  {
    TouchedIdentifiers(w, w', user);
    forall u | u in w'.jobs
      ensures UserFits(w', u)
    {
      assert UserFits(w, u);
      if u != user {
        BystanderFits(w, w', user, u);
      } else {
        TouchedUserFits(w, w', user);
      }
    }
  }

  lemma TouchedUserFits(w: World, w': World, user: User)
    requires Touched(w, w', user) && UserFits(w, user) && LeaseFits(w', user)
    requires w'.jobs[user].Active() || w'.jobs[user].lease.Some? ==> Open(w'.jobs[user])
    ensures UserFits(w', user)
  {
  }

  lemma BystanderFits(w: World, w': World, user: User, u: User)
    requires Touched(w, w', user) && u in w.jobs && u != user && UserFits(w, u)
    ensures UserFits(w', u)
  {
  }

  lemma LeaseTouches(w: World, user: User, g: Uuid, now: Time, lease: Uuid, identity: Option<Identity>)
    requires Identifiers(w) && lease !in w.issued
    requires user in w.jobs && Lease(w, user, g, now, lease, identity).0 != w
    ensures Touched(w, Lease(w, user, g, now, lease, identity).0, user)
  {
  }

  /** The job a lease is taken on is open, and nothing was committed under the new lease. */
  lemma NewLeaseFits(w: World, user: User, g: Uuid, now: Time, lease: Uuid, identity: Option<Identity>)
    requires LogFits(w.commits, w.owners, w.workers) && w.workers.Keys <= w.issued && lease !in w.issued
    requires user in w.jobs && LeaseFits(w, user) && Lease(w, user, g, now, lease, identity).0 != w
    requires JobFits(user, w.jobs[user], PagesOf(w.commits, w.jobs[user].generation))
    ensures LeaseFits(Lease(w, user, g, now, lease, identity).0, user)
    ensures w.jobs[user].Active() && Open(w.jobs[user])
  {
  }

  lemma LeaseKeeps(w: World, user: User, g: Uuid, now: Time, lease: Uuid, identity: Option<Identity>)
    requires Invariant(w) && lease !in w.issued
    ensures Invariant(Lease(w, user, g, now, lease, identity).0)
  {
    var w' := Lease(w, user, g, now, lease, identity).0;
    if w' != w {
      assert UserFits(w, user);
      LeaseTouches(w, user, g, now, lease, identity);
      NewLeaseFits(w, user, g, now, lease, identity);
      TouchedKeeps(w, w', user);
    }
  }

  lemma FailKeeps(w: World, worker: Worker, now: Time)
    requires Invariant(w)
    ensures Invariant(Fail(w, worker, now).0)
  {
    var w' := Fail(w, worker, now).0;
    if w' != w {
      assert UserFits(w, worker.user);
      TouchedKeeps(w, w', worker.user);
    }
  }

  lemma DispatchKeeps(w: World, user: User, g: Uuid, now: Time)
    requires Invariant(w)
    ensures Invariant(DispatchFails(w, user, g, now))
  {
    var w' := DispatchFails(w, user, g, now);
    if w' != w {
      assert UserFits(w, user);
      TouchedKeeps(w, w', user);
    }
  }

  /** A start opens a generation without pages; the requests it claims are its first links. */
  lemma StartKeeps(w: World, user: User, now: Time, g: Uuid, identity: Option<Identity>)
    requires Invariant(w) && g !in w.issued
    ensures Invariant(Start(w, user, now, g, identity).0)
  {
    var w' := Start(w, user, now, g, identity).0;
    if w' != w {
      StartIdentifiers(w, user, now, g, identity);
      StartCounts(w, user, now, g, identity);
      NoPagesYet(w.commits, g);
      forall u | u in w'.jobs
        ensures UserFits(w', u)
      {
        if u != user {
          assert UserFits(w, u);
          StartBystander(w, w', user, u);
        }
      }
    }
  }

  lemma StartBystander(w: World, w': World, user: User, u: User)
    requires u in w.jobs && u != user && UserFits(w, u)
    requires u in w'.jobs && w'.jobs[u] == w.jobs[u]
    requires w'.workers == w.workers && w'.commits == w.commits && w'.tables.history == w.tables.history
    requires LinkedBy(w'.links, w.jobs[u].generation) == LinkedBy(w.links, w.jobs[u].generation)
    ensures UserFits(w', u)
  {
  }

  lemma StartIdentifiers(w: World, user: User, now: Time, g: Uuid, identity: Option<Identity>)
    requires Identifiers(w) && g !in w.issued
    ensures Identifiers(Start(w, user, now, g, identity).0)
    ensures OwnersKept(w.tables, Start(w, user, now, g, identity).0.tables)
  {
    if identity.Some? {
      ClaimLinksExactly(w.tables, user, identity.value);
    }
  }

  lemma StartCounts(w: World, user: User, now: Time, g: Uuid, identity: Option<Identity>)
    requires Identifiers(w) && g !in w.issued && Start(w, user, now, g, identity).1.Started?
    ensures var w' := Start(w, user, now, g, identity).0;
      && w'.jobs[user].added == |LinkedBy(w'.links, g)|
      && forall h | h != g :: LinkedBy(w'.links, h) == LinkedBy(w.links, h)
  {
    var ids := ClaimableIds(w.tables.intents, identity.value);
    AsManyRecords(ids);
    MarkedCounts(w.links, AsRecords(ids), g);
    assert LinkedBy(w.links, g) == {};
  }

  lemma AttachKeeps(w: World, i: IntentId, stay: PaidStay)
    requires Invariant(w)
    ensures Invariant(Attach(w, i, stay))
    ensures OwnersKept(w.tables, Attach(w, i, stay).tables)
  {
    var w' := Attach(w, i, stay);
    forall u | u in w'.jobs
      ensures UserFits(w', u)
    {
      assert UserFits(w, u);
    }
  }

  // ----- Committing a page -----

  /** The worker holds its user's job and its page is acceptable. */
  ghost predicate Committing(w: World, worker: Worker, rows: seq<Row>)
  {
    && worker.lease in w.workers && w.workers[worker.lease] == worker && worker.user in w.jobs
    && (forall j | 0 <= j < |rows| :: rows[j].id.Some? && rows[j].id.value > 0)
    && Holds(w.jobs[worker.user], worker)
    && (rows != [] ==> rows[|rows| - 1].id.value !in w.jobs[worker.user].seen)
  }

  /** How a committed page changes the recovered bookings. */
  ghost predicate HistoryTurned(h: map<BookingId, Seen>, h': map<BookingId, Seen>, user: User, g: Uuid, stored: set<BookingId>)
  {
    && h'.Keys == h.Keys + stored
    && (forall b | b in stored :: h'[b].user == user && h'[b].generation == g && h'[b].visible)
    && (forall b | b in stored && b in h :: h[b].user == user)
    && (forall b | b in h && b !in stored :: h'[b].user == h[b].user && h'[b].generation == h[b].generation)
    && (forall b | b in h && b !in stored && (h[b].user != user || h[b].generation == g) :: h'[b].visible == h[b].visible)
  }

  lemma PageTurnsHistory(start: Progress, p: Progress, user: User, g: Uuid, last: bool)
    requires Accounted(start, p, user, g) && start.stored == {}
    ensures HistoryTurned(start.tables.history,
                          if last then HideUnseen(p.tables.history, user, g) else p.tables.history,
                          user, g, p.stored)
  {
    var h, q := start.tables.history, p.tables.history;
    forall b | b in h
      ensures b in q && q[b].user == h[b].user
    {
      assert Linked(start.tables, OfHistory(b));
      assert OwnerOf(start.tables, OfHistory(b)) == OwnerOf(p.tables, OfHistory(b));
    }
  }

  /** Everything a committed page does to the tables and the link log. */
  ghost predicate PageDone(t: Tables, t': Tables, user: User, g: Uuid, p: Progress)
  {
    && HistoryTurned(t.history, t'.history, user, g, p.stored)
    && OwnersKept(t, t')
    && (forall r | Linked(t, r) || r in p.linked :: Linked(t', r))
    && (forall r | r in p.linked :: !Linked(t, r))
  }

  lemma PageIsDone(w: World, worker: Worker, now: Time, rows: seq<Row>)
    requires worker.user in w.jobs
    requires forall j | 0 <= j < |rows| :: rows[j].id.Some? && rows[j].id.value > 0
    ensures PageDone(w.tables, WithPage(w, worker, now, rows).tables, worker.user, worker.generation, Stored(w, worker, rows))
    ensures Stored(w, worker, rows).added == w.jobs[worker.user].added + |Stored(w, worker, rows).linked|
  {
    var job, p := w.jobs[worker.user], Stored(w, worker, rows);
    var start := Progress(w.tables, job.added, job.conflicts, job.skipped, {}, {});
    StoreAllAccounts(start, worker.user, worker.identity, worker.generation, rows);
    PageTurnsHistory(start, p, worker.user, worker.generation, rows == []);
    HidingKeepsOwners(p.tables, worker.user, worker.generation);
  }

  lemma HidingKeepsOwners(t: Tables, user: User, g: Uuid)
    ensures forall r :: Linked(t.(history := HideUnseen(t.history, user, g)), r) <==> Linked(t, r)
    ensures forall r | Linked(t, r) :: OwnerOf(t.(history := HideUnseen(t.history, user, g)), r) == OwnerOf(t, r)
  {
  }

  lemma LogGrows(commits: seq<Commit>, c: Commit, owners: map<Uuid, User>, workers: map<Uuid, Worker>)
    requires LogFits(commits, owners, workers)
    requires c.generation in owners && c.lease in workers
    requires forall k | 0 <= k < |commits| :: commits[k].lease != c.lease
    ensures LogFits(commits + [c], owners, workers)
  {
  }

  lemma PageFits(t: Tables, t': Tables, user: User, g: Uuid, p: Progress, owners: map<Uuid, User>, links: map<Record, Uuid>)
    requires PageDone(t, t', user, g, p) && g in owners
    requires HistoryFits(t.history, owners) && LinksFit(links, owners, t)
    ensures HistoryFits(t'.history, owners) && LinksFit(Marked(links, p.linked, g), owners, t')
    ensures p.linked !! links.Keys
  {
  }

  lemma CommitTables(w: World, worker: Worker, now: Time, rows: seq<Row>)
    requires worker.user in w.jobs && worker.generation in w.owners
    requires forall j | 0 <= j < |rows| :: rows[j].id.Some? && rows[j].id.value > 0
    requires HistoryFits(w.tables.history, w.owners) && LinksFit(w.links, w.owners, w.tables)
    ensures var w' := WithPage(w, worker, now, rows);
      HistoryFits(w'.tables.history, w.owners) && LinksFit(w'.links, w.owners, w'.tables)
  {
    PageIsDone(w, worker, now, rows);
    PageFits(w.tables, WithPage(w, worker, now, rows).tables, worker.user, worker.generation, Stored(w, worker, rows), w.owners, w.links);
  }

  lemma CommitIdentifiers(w: World, worker: Worker, now: Time, rows: seq<Row>)
    requires Identifiers(w) && Committing(w, worker, rows) && LeaseFits(w, worker.user)
    ensures Identifiers(WithPage(w, worker, now, rows))
  {
    CommitTables(w, worker, now, rows);
    LogGrows(w.commits, PageCommit(worker, rows, Stored(w, worker, rows).stored), w.owners, w.workers);
    assert WithPage(w, worker, now, rows).jobs[worker.user].generation == w.jobs[worker.user].generation;
  }

  lemma PageLinksNewRecords(w: World, worker: Worker, now: Time, rows: seq<Row>)
    requires worker.user in w.jobs && worker.generation in w.owners
    requires forall j | 0 <= j < |rows| :: rows[j].id.Some? && rows[j].id.value > 0
    requires HistoryFits(w.tables.history, w.owners) && LinksFit(w.links, w.owners, w.tables)
    ensures Stored(w, worker, rows).linked !! w.links.Keys
    ensures Stored(w, worker, rows).added == w.jobs[worker.user].added + |Stored(w, worker, rows).linked|
  {
    PageIsDone(w, worker, now, rows);
    PageFits(w.tables, WithPage(w, worker, now, rows).tables, worker.user, worker.generation, Stored(w, worker, rows), w.owners, w.links);
  }

  lemma CommitCounts(w: World, worker: Worker, now: Time, rows: seq<Row>)
    requires Identifiers(w) && Committing(w, worker, rows)
    requires w.jobs[worker.user].added == |LinkedBy(w.links, worker.generation)|
    ensures var (w', g) := (WithPage(w, worker, now, rows), worker.generation);
      && w'.jobs[worker.user].added == |LinkedBy(w'.links, g)|
      && forall h | h != g :: LinkedBy(w'.links, h) == LinkedBy(w.links, h)
  {
    PageLinksNewRecords(w, worker, now, rows);
    MarkedCounts(w.links, Stored(w, worker, rows).linked, worker.generation);
  }

  lemma CommitChains(job: Job, pages: seq<Commit>, c: Commit, user: User)
    requires JobFits(user, job, pages) && Open(job) && Chained(pages)
    requires c.cursor == job.cursor && c.digest == job.digest && c.user == user
    requires c.last.Some? ==> c.last.value !in job.seen
    ensures Chained(pages + [c])
  {
    assert forall k | 0 <= k < |pages| :: pages[k].last == Some(job.seen[k]);
  }

  lemma CommitJobFits(job: Job, pages: seq<Commit>, c: Commit, user: User, rows: seq<Row>, p: Progress, now: Time)
    requires JobFits(user, job, pages) && Open(job)
    requires c.digest == job.digest && c.user == user
    requires forall j | 0 <= j < |rows| :: rows[j].id.Some? && rows[j].id.value > 0
    requires c.last == if rows == [] then None else Some(rows[|rows| - 1].id.value)
    requires rows != [] ==> rows[|rows| - 1].id.value !in job.seen
    ensures JobFits(user, Turned(job, rows, p, now), pages + [c])
  {
  }

  /** The recovered bookings of any generation still agree with that generation's pages. */
  lemma HistoryTurnedFits(h: map<BookingId, Seen>, h': map<BookingId, Seen>, c: Commit, u: User, gu: Uuid, pages: seq<Commit>)
    requires HistoryTurned(h, h', c.user, c.generation, c.stored) && SeenFits(h, u, gu, pages)
    requires u == c.user <==> gu == c.generation
    ensures SeenFits(h', u, gu, if gu == c.generation then pages + [c] else pages)
  {
  }

  lemma CommitSeenFits(w: World, worker: Worker, now: Time, rows: seq<Row>, u: User)
    requires Committing(w, worker, rows)
    requires u in w.jobs && SeenFits(w.tables.history, u, w.jobs[u].generation, PagesOf(w.commits, w.jobs[u].generation))
    requires u == worker.user <==> w.jobs[u].generation == worker.generation
    ensures var w' := WithPage(w, worker, now, rows);
      SeenFits(w'.tables.history, u, w.jobs[u].generation, PagesOf(w'.commits, w.jobs[u].generation))
  {
    var g, c := w.jobs[u].generation, PageCommit(worker, rows, Stored(w, worker, rows).stored);
    PagesOfMore(w.commits, c, g);
    PageIsDone(w, worker, now, rows);
    HistoryTurnedFits(w.tables.history, WithPage(w, worker, now, rows).tables.history, c, u, g, PagesOf(w.commits, g));
  }

  lemma CommitWrites(w: World, worker: Worker, now: Time, rows: seq<Row>)
    requires Committing(w, worker, rows)
    ensures var (w', p) := (WithPage(w, worker, now, rows), Stored(w, worker, rows));
      && PagesOf(w'.commits, worker.generation) == PagesOf(w.commits, worker.generation) + [PageCommit(worker, rows, p.stored)]
      && w'.jobs[worker.user] == Turned(w.jobs[worker.user], rows, p, now)
  {
    PagesOfMore(w.commits, PageCommit(worker, rows, Stored(w, worker, rows).stored), worker.generation);
  }

  /** The committing user's chain grows by one page and its job agrees with it. */
  lemma CommitJob(w: World, worker: Worker, now: Time, rows: seq<Row>)
    requires Committing(w, worker, rows) && LeaseFits(w, worker.user)
    requires JobFits(worker.user, w.jobs[worker.user], PagesOf(w.commits, worker.generation))
    requires Chained(PagesOf(w.commits, worker.generation))
    ensures var (w', pages') := (WithPage(w, worker, now, rows), PagesOf(WithPage(w, worker, now, rows).commits, worker.generation));
      Chained(pages') && JobFits(worker.user, w'.jobs[worker.user], pages')
  {
    var p := Stored(w, worker, rows);
    CommitWrites(w, worker, now, rows);
    PageContinues(w.jobs[worker.user], PagesOf(w.commits, worker.generation), PageCommit(worker, rows, p.stored), worker.user, rows, p, now);
  }

  lemma PageContinues(job: Job, pages: seq<Commit>, c: Commit, user: User, rows: seq<Row>, p: Progress, now: Time)
    requires JobFits(user, job, pages) && Open(job) && Chained(pages)
    requires c.cursor == job.cursor && c.digest == job.digest && c.user == user
    requires forall j | 0 <= j < |rows| :: rows[j].id.Some? && rows[j].id.value > 0
    requires c.last == if rows == [] then None else Some(rows[|rows| - 1].id.value)
    requires rows != [] ==> rows[|rows| - 1].id.value !in job.seen
    ensures Chained(pages + [c]) && JobFits(user, Turned(job, rows, p, now), pages + [c])
  {
    CommitChains(job, pages, c, user);
    CommitJobFits(job, pages, c, user, rows, p, now);
  }

  lemma CommitUserFits(w: World, worker: Worker, now: Time, rows: seq<Row>)
    requires Identifiers(w) && Committing(w, worker, rows) && UserFits(w, worker.user)
    requires Chained(PagesOf(w.commits, worker.generation))
    ensures UserFits(WithPage(w, worker, now, rows), worker.user)
    ensures Chained(PagesOf(WithPage(w, worker, now, rows).commits, worker.generation))
  {
    CommitCounts(w, worker, now, rows);
    CommitSeenFits(w, worker, now, rows, worker.user);
    CommitJob(w, worker, now, rows);
  }

  /** Everybody else's job is as it was. */
  lemma CommitBystanderFits(w: World, worker: Worker, now: Time, rows: seq<Row>, u: User)
    requires Identifiers(w) && Committing(w, worker, rows)
    requires w.jobs[worker.user].added == |LinkedBy(w.links, worker.generation)|
    requires u in w.jobs && u != worker.user && UserFits(w, u)
    ensures UserFits(WithPage(w, worker, now, rows), u)
  {
    var w', g := WithPage(w, worker, now, rows), w.jobs[u].generation;
    var c := PageCommit(worker, rows, Stored(w, worker, rows).stored);
    assert g != worker.generation;
    CommitCounts(w, worker, now, rows);
    CommitSeenFits(w, worker, now, rows, u);
    PagesOfMore(w.commits, c, g);
    OtherLeaseFits(w, w', c, u);
  }

  lemma OtherLeaseFits(w: World, w': World, c: Commit, u: User)
    requires u in w.jobs && LeaseFits(w, u) && u in w'.jobs && w'.jobs[u] == w.jobs[u]
    requires w'.workers == w.workers && w'.commits == w.commits + [c]
    requires c.lease in w.workers && w.workers[c.lease].user != u
    ensures LeaseFits(w', u)
  {
  }

  lemma CommitFits(w: World, worker: Worker, now: Time, rows: seq<Row>, u: User)
    requires Identifiers(w) && Committing(w, worker, rows) && Chained(PagesOf(w.commits, worker.generation))
    requires UserFits(w, worker.user) && u in w.jobs && UserFits(w, u)
    ensures UserFits(WithPage(w, worker, now, rows), u)
  {
    if u == worker.user {
      CommitUserFits(w, worker, now, rows);
    } else {
      CommitBystanderFits(w, worker, now, rows, u);
    }
  }

  lemma CommitUsersFit(w: World, worker: Worker, now: Time, rows: seq<Row>)
    requires Identifiers(w) && Committing(w, worker, rows) && Chained(PagesOf(w.commits, worker.generation))
    requires forall u {:trigger UserFits(w, u)} | u in w.jobs :: UserFits(w, u)
    ensures var w' := WithPage(w, worker, now, rows); forall u {:trigger UserFits(w', u)} | u in w'.jobs :: UserFits(w', u)
  {
    assert UserFits(w, worker.user);
    var w' := WithPage(w, worker, now, rows);
    forall u | u in w'.jobs
      ensures UserFits(w', u)
    {
      assert u in w.jobs && UserFits(w, u);
      CommitFits(w, worker, now, rows, u);
    }
  }

  lemma CommitChained(w: World, worker: Worker, now: Time, rows: seq<Row>)
    requires Identifiers(w) && Committing(w, worker, rows) && UserFits(w, worker.user)
    requires forall g :: Chained(PagesOf(w.commits, g))
    ensures forall g :: Chained(PagesOf(WithPage(w, worker, now, rows).commits, g))
  {
    CommitUserFits(w, worker, now, rows);
    forall g
      ensures Chained(PagesOf(WithPage(w, worker, now, rows).commits, g))
    {
      PagesOfMore(w.commits, PageCommit(worker, rows, Stored(w, worker, rows).stored), g);
    }
  }

  lemma WithPageKeeps(w: World, worker: Worker, now: Time, rows: seq<Row>)
    requires Invariant(w) && Committing(w, worker, rows)
    ensures Invariant(WithPage(w, worker, now, rows))
  {
    assert UserFits(w, worker.user);
    CommitIdentifiers(w, worker, now, rows);
    CommitUsersFit(w, worker, now, rows);
    CommitChained(w, worker, now, rows);
  }

  lemma FinishKeeps(w: World, worker: Worker, now: Time, reply: Reply, identity: Option<Identity>)
    requires Invariant(w) && worker.lease in w.workers && w.workers[worker.lease] == worker && worker.user in w.jobs
    ensures Invariant(Finish(w, worker, now, reply, identity).0)
    ensures OwnersKept(w.tables, Finish(w, worker, now, reply, identity).0.tables)
  {
    FailKeeps(w, worker, now);
    if Finish(w, worker, now, reply, identity).1.Committed? {
      WithPageKeeps(w, worker, now, reply.rows);
      PageIsDone(w, worker, now, reply.rows);
    }
  }

  // ----- Whole runs -----

  lemma StepKeeps(w: World, step: Step)
    requires Invariant(w) && Enabled(w, step)
    ensures Invariant(Apply(w, step))
  {
    match step
    case StartStep(user, now, g, identity) => StartKeeps(w, user, now, g, identity);
    case LeaseStep(user, g, now, lease, identity) => LeaseKeeps(w, user, g, now, lease, identity);
    case FinishStep(lease, now, reply, identity) => FinishKeeps(w, w.workers[lease], now, reply, identity);
    case DispatchFailsStep(user, g, now) => DispatchKeeps(w, user, g, now);
    case AttachStep(i, stay) => AttachKeeps(w, i, stay);
  }

  lemma {:induction false} RunKeepsInvariant(states: seq<World>, steps: seq<Step>, j: nat)
    requires Run(states, steps) && j < |states|
    ensures Invariant(states[j])
  {
    if j > 0 {
      RunKeepsInvariant(states, steps, j - 1);
      StepKeeps(states[j - 1], steps[j - 1]);
    }
  }

  /** In every run the pages committed in any one generation form a single unbroken cursor
      chain of at most MAX_PAGES pages, and no page request commits twice. */
  lemma PagesFormOneChain(states: seq<World>, steps: seq<Step>, j: nat, g: Uuid)
    requires Run(states, steps) && j < |states|
    ensures Chained(PagesOf(states[j].commits, g))
    ensures forall a, b | 0 <= a < b < |states[j].commits| :: states[j].commits[a].lease != states[j].commits[b].lease
  {
    RunKeepsInvariant(states, steps, j);
  }

  lemma StepKeepsOwners(w: World, step: Step)
    requires Invariant(w) && Enabled(w, step)
    ensures OwnersKept(w.tables, Apply(w, step).tables)
  {
    match step
    case StartStep(user, now, g, identity) => StartIdentifiers(w, user, now, g, identity);
    case FinishStep(lease, now, reply, identity) => FinishKeeps(w, w.workers[lease], now, reply, identity);
    case AttachStep(i, stay) => AttachKeeps(w, i, stay);
    case LeaseStep(_, _, _, _, _) =>
    case DispatchFailsStep(_, _, _) =>
  }

  /** A record's owner is set once and never changes, whatever runs in between. */
  lemma {:induction false} OwnersNeverChange(states: seq<World>, steps: seq<Step>, i: nat, j: nat)
    requires Run(states, steps) && i <= j < |states|
    ensures OwnersKept(states[i].tables, states[j].tables)
    decreases j - i
  {
    if i < j {
      RunKeepsInvariant(states, steps, i);
      StepKeepsOwners(states[i], steps[i]);
      OwnersNeverChange(states, steps, i + 1, j);
    }
  }

  /** The generation a step works for: the one it starts, or the one of its finishing worker. */
  function Generation(w: World, step: Step): Option<Uuid>
    requires step.FinishStep? ==> step.lease in w.workers
  {
    match step
    case StartStep(_, _, g, _) => Some(g)
    case FinishStep(lease, _, _, _) => Some(w.workers[lease].generation)
    case _ => None
  }

  /** The record had no owner before this step of generation g, and has one after it. */
  ghost predicate NewlyLinked(w: World, step: Step, w': World, g: Uuid, r: Record)
  {
    Enabled(w, step) && Generation(w, step) == Some(g) && !Linked(w.tables, r) && Linked(w'.tables, r)
  }

  lemma StartLinks(w: World, user: User, now: Time, g: Uuid, identity: Option<Identity>, r: Record)
    requires LinksFit(w.links, w.owners, w.tables)
    ensures var w' := Start(w, user, now, g, identity).0;
      && (r in w'.links <==> r in w.links || (!Linked(w.tables, r) && Linked(w'.tables, r)))
      && (r in w'.links ==> w'.links[r] == if r in w.links then w.links[r] else g)
  {
    if identity.Some? {
      ClaimLinksExactly(w.tables, user, identity.value);
    }
  }

  lemma PageOwns(w: World, worker: Worker, now: Time, rows: seq<Row>, r: Record)
    requires worker.user in w.jobs
    requires forall j | 0 <= j < |rows| :: rows[j].id.Some? && rows[j].id.value > 0
    ensures Linked(WithPage(w, worker, now, rows).tables, r) <==> Linked(w.tables, r) || r in Stored(w, worker, rows).linked
    ensures r in Stored(w, worker, rows).linked ==> !Linked(w.tables, r)
  {
    var job, p := w.jobs[worker.user], Stored(w, worker, rows);
    var start := Progress(w.tables, job.added, job.conflicts, job.skipped, {}, {});
    StoreAllAccounts(start, worker.user, worker.identity, worker.generation, rows);
    HidingKeepsOwners(p.tables, worker.user, worker.generation);
  }

  lemma PageLinks(w: World, worker: Worker, now: Time, rows: seq<Row>, r: Record)
    requires LinksFit(w.links, w.owners, w.tables) && worker.user in w.jobs
    requires forall j | 0 <= j < |rows| :: rows[j].id.Some? && rows[j].id.value > 0
    ensures var w' := WithPage(w, worker, now, rows);
      && (r in w'.links <==> r in w.links || (!Linked(w.tables, r) && Linked(w'.tables, r)))
      && (r in w'.links ==> w'.links[r] == if r in w.links then w.links[r] else worker.generation)
  {
    PageOwns(w, worker, now, rows, r);
  }

  lemma FinishLinks(w: World, worker: Worker, now: Time, reply: Reply, identity: Option<Identity>, r: Record)
    requires LinksFit(w.links, w.owners, w.tables) && worker.user in w.jobs
    ensures var w' := Finish(w, worker, now, reply, identity).0;
      && (r in w'.links <==> r in w.links || (!Linked(w.tables, r) && Linked(w'.tables, r)))
      && (r in w'.links ==> w'.links[r] == if r in w.links then w.links[r] else worker.generation)
  {
    if Finish(w, worker, now, reply, identity).1.Committed? {
      PageLinks(w, worker, now, reply.rows, r);
    }
  }

  /** A step logs under its generation exactly the records that get an owner in it. */
  lemma StepLinks(w: World, step: Step, g: Uuid, r: Record)
    requires LinksFit(w.links, w.owners, w.tables) && Enabled(w, step)
    ensures r in LinkedBy(Apply(w, step).links, g) <==> r in LinkedBy(w.links, g) || NewlyLinked(w, step, Apply(w, step), g, r)
  {
    match step
    case StartStep(user, now, g', identity) => StartLinks(w, user, now, g', identity, r);
    case FinishStep(lease, now, reply, identity) => FinishLinks(w, w.workers[lease], now, reply, identity, r);
    case AttachStep(_, _) =>
    case LeaseStep(_, _, _, _, _) =>
    case DispatchFailsStep(_, _, _) =>
  }

  /** Some step before the n-th one of generation g gave the record its owner. */
  ghost predicate LinkedWithin(states: seq<World>, steps: seq<Step>, n: nat, g: Uuid, r: Record)
    requires n <= |steps| < |states|
  {
    exists j :: 0 <= j < n && NewlyLinked(states[j], steps[j], states[j + 1], g, r)
  }

  lemma LinkedWithinMore(states: seq<World>, steps: seq<Step>, n: nat, g: Uuid, r: Record)
    requires n < |steps| < |states|
    ensures LinkedWithin(states, steps, n + 1, g, r)
      <==> LinkedWithin(states, steps, n, g, r) || NewlyLinked(states[n], steps[n], states[n + 1], g, r)
  {
  }

  /** The n-th step logs exactly what it links. */
  ghost predicate StepLogs(states: seq<World>, steps: seq<Step>, n: nat, g: Uuid, r: Record)
    requires n < |steps| < |states|
  {
    r in LinkedBy(states[n + 1].links, g) <==>
      r in LinkedBy(states[n].links, g) || NewlyLinked(states[n], steps[n], states[n + 1], g, r)
  }

  lemma StepOfRunLogs(states: seq<World>, steps: seq<Step>, n: nat, g: Uuid, r: Record)
    requires Run(states, steps) && n < |steps|
    ensures StepLogs(states, steps, n, g, r)
  {
    RunKeepsInvariant(states, steps, n);
    StepLinks(states[n], steps[n], g, r);
  }

  lemma {:induction false} LogsAddUp(states: seq<World>, steps: seq<Step>, n: nat, g: Uuid, r: Record)
    requires n <= |steps| < |states| && states[0].links == map[]
    requires forall j: nat {:trigger StepLogs(states, steps, j, g, r)} | j < |steps| :: StepLogs(states, steps, j, g, r)
    ensures r in LinkedBy(states[n].links, g) <==> LinkedWithin(states, steps, n, g, r)
  {
    if n > 0 {
      LogsAddUp(states, steps, n - 1, g, r);
      assert StepLogs(states, steps, n - 1, g, r);
      LinkedWithinMore(states, steps, n - 1, g, r);
    }
  }

  /** The logged records of a generation are exactly those that got their owner in one of its steps. */
  lemma LoggedMeansLinked(states: seq<World>, steps: seq<Step>, n: nat, g: Uuid, r: Record)
    requires Run(states, steps) && n < |states|
    ensures r in LinkedBy(states[n].links, g) <==> LinkedWithin(states, steps, n, g, r)
  {
    forall j: nat | j < |steps| ensures StepLogs(states, steps, j, g, r) {
      StepOfRunLogs(states, steps, j, g, r);
    }
    LogsAddUp(states, steps, n, g, r);
  }

  /** At any time a job's counter is the number of the records that got their owner in the
      steps of its generation. */
  lemma AddedIsWhatWasLinked(states: seq<World>, steps: seq<Step>, n: nat, user: User)
    returns (linked: set<Record>)
    requires Run(states, steps) && n < |states| && user in states[n].jobs
    ensures states[n].jobs[user].added == |linked|
    ensures forall r :: r in linked <==> LinkedWithin(states, steps, n, states[n].jobs[user].generation, r)
  {
    var g := states[n].jobs[user].generation;
    linked := LinkedBy(states[n].links, g);
    CountsItsLinks(states, steps, n, user);
    forall r ensures r in linked <==> LinkedWithin(states, steps, n, g, r) {
      LoggedMeansLinked(states, steps, n, g, r);
    }
  }

  lemma CountsItsLinks(states: seq<World>, steps: seq<Step>, n: nat, user: User)
    requires Run(states, steps) && n < |states| && user in states[n].jobs
    ensures states[n].jobs[user].added == |LinkedBy(states[n].links, states[n].jobs[user].generation)|
  {
    RunKeepsInvariant(states, steps, n);
    assert UserFits(states[n], user);
  }

  /** When a generation completes, a recovered booking of the user shows exactly when one
      of the generation's pages stored it. */
  lemma CompletionShowsWhatWasSeen(states: seq<World>, steps: seq<Step>, j: nat, b: BookingId)
    requires Run(states, steps) && j < |steps| && steps[j].FinishStep?
    requires Finish(states[j], states[j].workers[steps[j].lease], steps[j].now, steps[j].reply, steps[j].identity).1 == Committed(Complete)
    requires b in states[j + 1].tables.history
    requires states[j + 1].tables.history[b].user == states[j].workers[steps[j].lease].user
    ensures states[j + 1].tables.history[b].visible
       <==> b in StoredIn(PagesOf(states[j + 1].commits, states[j].workers[steps[j].lease].generation))
  {
    var w, w', worker := states[j], states[j + 1], states[j].workers[steps[j].lease];
    RunKeepsInvariant(states, steps, j);
    RunKeepsInvariant(states, steps, j + 1);
    assert UserFits(w', worker.user);
    CompletionHides(w, worker, steps[j].now, steps[j].reply, steps[j].identity);
    SeenIsStored(w', worker.user, b);
  }

  /** A completing page hides everything of the user that its generation did not see. */
  lemma CompletionHides(w: World, worker: Worker, now: Time, reply: Reply, identity: Option<Identity>)
    requires worker.user in w.jobs && Finish(w, worker, now, reply, identity).1 == Committed(Complete)
    ensures var w' := Finish(w, worker, now, reply, identity).0;
      && worker.user in w'.jobs && w'.jobs[worker.user].generation == worker.generation
      && forall b | b in w'.tables.history && w'.tables.history[b].user == worker.user && w'.tables.history[b].visible ::
           w'.tables.history[b].generation == worker.generation
  {
  }

  lemma SeenIsStored(w: World, user: User, b: BookingId)
    requires user in w.jobs && b in w.tables.history
    requires SeenFits(w.tables.history, user, w.jobs[user].generation, PagesOf(w.commits, w.jobs[user].generation))
    ensures b in StoredIn(PagesOf(w.commits, w.jobs[user].generation)) <==> w.tables.history[b].generation == w.jobs[user].generation
    ensures b in StoredIn(PagesOf(w.commits, w.jobs[user].generation)) ==> w.tables.history[b].visible
  {
  }

  /** A worker whose lease or generation was overtaken changes nothing, whatever it brings. */
  lemma StaleWorkersAreHarmless(w: World, worker: Worker, now: Time, reply: Reply, identity: Option<Identity>)
    requires worker.user in w.jobs && !Holds(w.jobs[worker.user], worker)
    ensures Finish(w, worker, now, reply, identity).0 == w
  {
  }

  // ----- Lost leases -----

  /** Worker l no longer holds its user's job. */
  ghost predicate Overtaken(w: World, l: Uuid)
  {
    l in w.workers && w.workers[l].user in w.jobs && !Holds(w.jobs[w.workers[l].user], w.workers[l])
  }

  lemma StaysOvertaken(w: World, step: Step, l: Uuid)
    requires Identifiers(w) && Enabled(w, step) && Overtaken(w, l)
    ensures Overtaken(Apply(w, step), l) && Apply(w, step).workers[l] == w.workers[l]
  {
    assert l in w.issued && w.workers[l].lease == l;
  }

  lemma StepStaysOvertaken(states: seq<World>, steps: seq<Step>, j: nat, l: Uuid)
    requires Run(states, steps) && j < |steps| && Overtaken(states[j], l)
    ensures Overtaken(states[j + 1], l) && states[j + 1].workers[l] == states[j].workers[l]
  {
    RunKeepsInvariant(states, steps, j);
    StaysOvertaken(states[j], steps[j], l);
  }

  lemma {:induction false} LostLeaseNeverReturns(states: seq<World>, steps: seq<Step>, i: nat, j: nat, l: Uuid)
    requires Run(states, steps) && i <= j < |states| && Overtaken(states[i], l)
    ensures Overtaken(states[j], l) && states[j].workers[l] == states[i].workers[l]
    decreases j - i
  {
    if i < j {
      StepStaysOvertaken(states, steps, i, l);
      LostLeaseNeverReturns(states, steps, i + 1, j, l);
    }
  }

  /** A worker that lost its job at any moment, to a new generation, a later lease, a failure
      or its own commit, never writes again. */
  lemma OvertakenWorkersNeverWrite(states: seq<World>, steps: seq<Step>, i: nat, k: nat, l: Uuid)
    requires Run(states, steps) && i <= k < |steps| && Overtaken(states[i], l)
    requires steps[k].FinishStep? && steps[k].lease == l
    ensures states[k + 1] == states[k]
  {
    LostLeaseNeverReturns(states, steps, i, k, l);
    StaleWorkersAreHarmless(states[k], states[k].workers[l], steps[k].now, steps[k].reply, steps[k].identity);
  }

  /** A committed page costs its worker the lease, and so does every start of a generation. */
  lemma CommitsAndStartsOvertake(w: World, step: Step, l: Uuid)
    requires Invariant(w) && Enabled(w, step) && l in w.workers
    requires (step.FinishStep? && step.lease == l && Apply(w, step).commits != w.commits)
          || (step.StartStep? && step.user == w.workers[l].user && Apply(w, step).jobs != w.jobs)
          || (step.LeaseStep? && step.user == w.workers[l].user && Apply(w, step).workers != w.workers)
    ensures Overtaken(Apply(w, step), l)
  {
    assert l in w.issued && w.workers[l].lease == l;
  }

  // ----- What each transaction promises its caller -----

  /** The cursor the next page of a generation is to be fetched with. */
  ghost function NextCursor(pages: seq<Commit>): Option<nat>
  {
    if pages == [] then None else pages[|pages| - 1].last
  }

  /** All workers of this user so far are overtaken. */
  ghost predicate AllOvertaken(w: World, w': World, user: User)
  {
    forall l {:trigger Overtaken(w', l)} | l in w.workers && w.workers[l].user == user :: Overtaken(w', l)
  }

  lemma StartPromise(w: World, user: User, now: Time, g: Uuid, identity: Option<Identity>)
    requires Invariant(w) && g !in w.issued
    ensures var (w', outcome) := Start(w, user, now, g, identity);
      && Invariant(w') && OwnersKept(w.tables, w'.tables)
      && (outcome.Started? ==> AllOvertaken(w, w', user) && PagesOf(w'.commits, g) == [])
  {
    StartKeeps(w, user, now, g, identity);
    StartIdentifiers(w, user, now, g, identity);
    NoPagesYet(w.commits, g);
  }

  lemma LeaseOvertakes(w: World, user: User, g: Uuid, now: Time, lease: Uuid, identity: Option<Identity>)
    requires Identifiers(w) && lease !in w.issued && Lease(w, user, g, now, lease, identity).1.Leased?
    ensures AllOvertaken(w, Lease(w, user, g, now, lease, identity).0, user)
  {
    forall l | l in w.workers && w.workers[l].user == user ensures Overtaken(Lease(w, user, g, now, lease, identity).0, l) {
      assert l in w.issued && w.workers[l].lease == l;
    }
  }

  lemma LeasePromise(w: World, user: User, g: Uuid, now: Time, lease: Uuid, identity: Option<Identity>)
    requires Invariant(w) && lease !in w.issued
    ensures Invariant(Lease(w, user, g, now, lease, identity).0)
    ensures Lease(w, user, g, now, lease, identity).1.Leased? ==>
      && AllOvertaken(w, Lease(w, user, g, now, lease, identity).0, user)
      && Lease(w, user, g, now, lease, identity).1.worker.cursor == NextCursor(PagesOf(w.commits, g))
  {
    LeaseKeeps(w, user, g, now, lease, identity);
    if Lease(w, user, g, now, lease, identity).1.Leased? {
      assert UserFits(w, user);
      LeaseOvertakes(w, user, g, now, lease, identity);
    }
  }

  lemma FailPromise(w: World, worker: Worker, now: Time)
    requires Invariant(w) && worker.lease in w.workers && w.workers[worker.lease] == worker
    ensures var w' := Fail(w, worker, now).0;
      && Invariant(w') && w'.tables == w.tables && w'.commits == w.commits
      && Overtaken(w', worker.lease) && (Overtaken(w, worker.lease) ==> w' == w)
  {
    FailKeeps(w, worker, now);
  }

  lemma FinishOvertakes(w: World, worker: Worker, now: Time, reply: Reply, identity: Option<Identity>)
    requires worker.lease in w.workers && w.workers[worker.lease] == worker && worker.user in w.jobs
    ensures var (w', outcome) := Finish(w, worker, now, reply, identity);
      && Overtaken(w', worker.lease) && (Overtaken(w, worker.lease) ==> w' == w)
      && (!outcome.Committed? ==> w'.commits == w.commits && w'.tables == w.tables)
  {
  }

  /** The worker's page follows directly on the last page of its generation. */
  ghost predicate CommitsNext(w: World, w': World, worker: Worker)
  {
    && |w'.commits| == |w.commits| + 1 && w'.commits[..|w.commits|] == w.commits
    && w'.commits[|w.commits|].lease == worker.lease && w'.commits[|w.commits|].generation == worker.generation
    && w'.commits[|w.commits|].cursor == NextCursor(PagesOf(w.commits, worker.generation))
  }

  lemma CommitFollows(w: World, worker: Worker, now: Time, reply: Reply, identity: Option<Identity>)
    requires worker.lease in w.workers && w.workers[worker.lease] == worker && worker.user in w.jobs && LeaseFits(w, worker.user)
    requires JobFits(worker.user, w.jobs[worker.user], PagesOf(w.commits, w.jobs[worker.user].generation))
    requires Finish(w, worker, now, reply, identity).1.Committed?
    ensures CommitsNext(w, Finish(w, worker, now, reply, identity).0, worker)
  {
  }

  lemma FinishPromise(w: World, worker: Worker, now: Time, reply: Reply, identity: Option<Identity>)
    requires Invariant(w) && worker.lease in w.workers && w.workers[worker.lease] == worker && worker.user in w.jobs
    ensures Invariant(Finish(w, worker, now, reply, identity).0)
    ensures OwnersKept(w.tables, Finish(w, worker, now, reply, identity).0.tables)
    ensures Finish(w, worker, now, reply, identity).1.Committed? ==> CommitsNext(w, Finish(w, worker, now, reply, identity).0, worker)
  {
    FinishKeeps(w, worker, now, reply, identity);
    if Finish(w, worker, now, reply, identity).1.Committed? {
      assert UserFits(w, worker.user);
      CommitFollows(w, worker, now, reply, identity);
    }
  }
}
