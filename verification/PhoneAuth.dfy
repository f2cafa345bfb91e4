/** One-use WhatsApp codes: a challenge is begun, delivered, and consumed at most once. */
module PhoneAuth {
  import opened Wrappers
  import opened PhoneIdentity

  type Id = nat
  type Session = nat
  type Time = int

  const TTL := 300
  const MAX_ATTEMPTS := 5
  const CODES := 1_000_000

  datatype Purpose = Bind | Login

  datatype Status = Pending | Sending | Sent | Failed | Superseded | Locked | Consumed

  /** `code` stands for the stored digest of a code: digests of different codes differ. */
  datatype Challenge = Challenge(
    user: Option<User>, phone: Phone, purpose: Purpose, version: Option<Version>,
    session: Session, code: Option<nat>, status: Status, attempts: nat, expires: Time)

  /** A delivery task that has drawn its code: checking the provider, or about to report. */
  datatype Task = Idle | Checking | Reporting

  /** What happened to a challenge so far: wrong guesses, acceptances, messages handed to the provider. */
  datatype Tracked = Tracked(row: Challenge, task: Task, wrong: nat, accepted: nat, messages: nat)

  type Challenges = map<Id, Tracked>

  datatype World = World(owners: Owners, challenges: Challenges)

  /** `admitted`: the request passed the shared rate limits. */
  datatype Request = Request(
    phone: Phone, purpose: Purpose, actor: Option<User>, session: Session, previous: Option<Id>,
    allowed: bool, emailVerified: bool, recent: bool, admitted: bool)

  /** A guess; `submitted` is None unless it is six ASCII digits. */
  datatype Guess = Guess(
    id: Id, session: Session, submitted: Option<nat>, actor: Option<User>, allowed: bool, recent: bool)

  predicate Active(s: Status) { s.Pending? || s.Sending? || s.Sent? }

  function Supersede(t: Tracked): Tracked
  {
    if Active(t.row.status) then t.(row := t.row.(status := Superseded, code := None)) else t
  }

  // ----- Identity changes -----

  function ApproveChange(w: World, r: Change, newVersion: Version): World
  {
    if !Approvable(w.owners, r) then w
    else World(Approved(w.owners, r, newVersion),
               map id | id in w.challenges ::
                 if w.challenges[id].row.user == Some(r.user) then Supersede(w.challenges[id]) else w.challenges[id])
  }

  // ----- Beginning -----

  /** The user a challenge for this number is for. */
  function Target(o: Owners, r: Request): Option<User>
  {
    if r.purpose.Bind? then r.actor
    else match OwnerIn(o.verified, r.phone)
      case Some(u) => Some(u)
      case None => OwnerIn(o.approved, r.phone)
  }

  /** The only user with this number in a table. */
  function OwnerIn(table: map<User, Binding>, p: Phone): Option<User>
  {
    var us := Holders(table, p);
    if exists u | u in us :: us == {u} then var u :| u in us && us == {u}; Some(u) else None
  }

  function VersionFor(o: Owners, p: Phone): Option<Version>
  {
    match OwnerIn(o.verified, p)
    case Some(u) => VersionIn(o.verified, u)
    case None =>
      match OwnerIn(o.approved, p)
      case Some(u) => VersionIn(o.approved, u)
      case None => None
  }

  predicate MayBegin(o: Owners, r: Request)
  {
    && (if r.purpose.Bind? then
          && r.actor.Some? && r.allowed && r.emailVerified && r.recent
          && r.actor.value !in o.verified
          && Holders(o.verified, r.phone) == {} && Holders(o.approved, r.phone) == {}
          && CanBind(o, r.actor.value, r.phone)
        else r.actor.None?)
    && r.admitted
  }

  function Fresh(o: Owners, r: Request, now: Time): Tracked
  {
    Tracked(
      Challenge(if r.allowed then Target(o, r) else None, r.phone, r.purpose, VersionFor(o, r.phone),
                r.session, None, Pending, 0, now + TTL),
      Idle, 0, 0, 0)
  }

  /** The session's earlier challenge gives way to the new one. */
  function Begin(w: World, r: Request, newId: Id, now: Time): World
  {
    if !MayBegin(w.owners, r) then w
    else w.(challenges := GiveWay(w.challenges, r.previous, r.session)[newId := Fresh(w.owners, r, now)])
  }

  function GiveWay(cs: Challenges, previous: Option<Id>, session: Session): Challenges
  {
    if previous.Some? && previous.value in cs && cs[previous.value].row.session == session
    then cs[previous.value := Supersede(cs[previous.value])]
    else cs
  }

  // ----- Delivering -----

  predicate CurrentBinding(o: Owners, c: Challenge)
  {
    c.user.Some? && c.version.Some? && Stands(o, c.user.value, Binding(c.phone, c.version.value))
  }

  predicate MayDeliver(o: Owners, c: Challenge, allowed: bool, now: Time)
  {
    && c.status.Pending? && c.expires > now && c.user.Some? && allowed
    && (c.purpose.Login? ==> CurrentBinding(o, c))
    && (c.purpose.Bind? ==> CanBind(o, c.user.value, c.phone))
  }

  /** The task draws a code and takes the challenge. */
  function Prepare(w: World, id: Id, code: nat, allowed: bool, now: Time): World
  {
    if id !in w.challenges || !MayDeliver(w.owners, w.challenges[id].row, allowed, now) then w
    else w.(challenges := w.challenges[id := Prepared(w.challenges[id], code)])
  }

  function Prepared(t: Tracked, code: nat): Tracked
  {
    t.(row := t.row.(code := Some(code), status := Sending), task := Checking)
  }

  /** The last check before the provider is called: only a live challenge is sent. */
  function Recheck(w: World, id: Id, now: Time): World
  {
    if id !in w.challenges || !w.challenges[id].task.Checking? then w
    else w.(challenges := w.challenges[id := Rechecked(w.challenges[id], now)])
  }

  function Rechecked(t: Tracked, now: Time): Tracked
  {
    if t.row.status.Sending? && t.row.expires > now then t.(task := Reporting, messages := t.messages + 1)
    else t.(task := Idle)
  }

  /** The task records how the call ended, unless the challenge moved on meanwhile. */
  function Report(w: World, id: Id, ok: bool): World
  {
    if id !in w.challenges || w.challenges[id].task.Idle? || (ok && w.challenges[id].task.Checking?) then w
    else w.(challenges := w.challenges[id := Reported(w.challenges[id], ok)])
  }

  function Reported(t: Tracked, ok: bool): Tracked
  {
    var done := t.(task := Idle);
    if !t.row.status.Sending? then done
    else if ok then done.(row := t.row.(status := Sent))
    else done.(row := t.row.(status := Failed, code := None))
  }

  /** The broker refused the task. */
  function QueueFails(w: World, id: Id): World
  {
    if id !in w.challenges || !w.challenges[id].row.status.Pending? then w
    else w.(challenges := w.challenges[id := w.challenges[id].(row := w.challenges[id].row.(status := Failed))])
  }

  // ----- Consuming -----

  predicate Open(c: Challenge, g: Guess, now: Time)
  {
    && c.status.Sent? && c.expires > now && c.attempts < MAX_ATTEMPTS
    && c.session == g.session && c.user.Some? && g.allowed
  }

  predicate Right(c: Challenge, g: Guess) { g.submitted.Some? && c.code == g.submitted }

  function Miss(t: Tracked): Tracked
  {
    var row := t.row.(attempts := t.row.attempts + 1);
    t.(row := if row.attempts >= MAX_ATTEMPTS then row.(status := Locked, code := None) else row,
       wrong := t.wrong + 1)
  }

  function Accept(t: Tracked): Tracked
  {
    t.(row := t.row.(attempts := t.row.attempts + 1, status := Consumed, code := None), accepted := t.accepted + 1)
  }

  /** The owners after a right guess, or None when the account may not use it now. */
  function Proven(o: Owners, c: Challenge, g: Guess, newVersion: Version): Option<Owners>
    requires c.user.Some?
  {
    var u := c.user.value;
    if c.purpose.Bind? then
      if g.actor != c.user || !g.recent || !CanBind(o, u, c.phone) then None
      else match Bound(o, u, c.phone, newVersion)
        case None => None
        case Some(p) => Some(WithContact(p, u, c.phone))
    else if g.actor.Some? || !CurrentBinding(o, c) then None
    else if u in o.approved && o.approved[u] == Binding(c.phone, c.version.value) then
      if u in o.verified then None else Promoted(o, u, c.phone, newVersion)
    else Some(o)
  }

  function Consume(w: World, g: Guess, newVersion: Version, now: Time): (World, bool)
  {
    if g.id !in w.challenges then (w, false)
    else
      var t := w.challenges[g.id];
      if !Open(t.row, g, now) then (w, false)
      else if !Right(t.row, g) then (w.(challenges := w.challenges[g.id := Miss(t)]), false)
      else match Proven(w.owners, t.row, g, newVersion)
        case None => (w, false)
        case Some(o) => (World(o, w.challenges[g.id := Accept(t)]), true)
  }

  // ----- Steps and runs -----

  /** `Elsewhere`: profiles and memberships change outside this file. */
  datatype Step =
    | ApproveStep(change: Change, newVersion: Version)
    | BeginStep(request: Request, newId: Id, now: Time)
    | PrepareStep(id: Id, code: nat, allowed: bool, now: Time)
    | RecheckStep(id: Id, now: Time)
    | ReportStep(id: Id, ok: bool)
    | QueueFailsStep(id: Id)
    | ConsumeStep(guess: Guess, newVersion: Version, now: Time)
    | Elsewhere(contacts: map<User, Contact>, members: set<User>)

  ghost predicate Enabled(w: World, step: Step)
  {
    match step
    case ApproveStep(_, v) => v !in w.owners.issued
    case BeginStep(_, id, _) => id !in w.challenges
    case ConsumeStep(_, v, _) => v !in w.owners.issued
    case PrepareStep(_, code, _, _) => code < CODES
    case _ => true
  }

  ghost function Next(w: World, step: Step): World
  {
    match step
    case ApproveStep(r, v) => ApproveChange(w, r, v)
    case BeginStep(r, id, now) => Begin(w, r, id, now)
    case PrepareStep(id, code, allowed, now) => Prepare(w, id, code, allowed, now)
    case RecheckStep(id, now) => Recheck(w, id, now)
    case ReportStep(id, ok) => Report(w, id, ok)
    case QueueFailsStep(id) => QueueFails(w, id)
    case ConsumeStep(g, v, now) => Consume(w, g, v, now).0
    case Elsewhere(contacts, members) => w.(owners := w.owners.(contacts := contacts, members := members))
  }

  /** worlds[j] --steps[j]--> worlds[j + 1], from nothing at all. */
  ghost predicate Run(worlds: seq<World>, steps: seq<Step>)
  {
    && |worlds| == |steps| + 1
    && worlds[0].owners.verified == map[] && worlds[0].owners.approved == map[] && worlds[0].challenges == map[]
    && forall j | 0 <= j < |steps| :: Enabled(worlds[j], steps[j]) && worlds[j + 1] == Next(worlds[j], steps[j])
  }

  // ----- What always holds -----

  /** What a challenge's row says and what happened to it fit together. */
  predicate Fits(t: Tracked)
  {
    var row := t.row;
    && (row.code.Some? <==> row.status.Sending? || row.status.Sent?)
    && t.messages <= 1 && (row.status.Pending? || t.task.Checking? ==> t.messages == 0)
    && (row.status.Pending? ==> t.task.Idle?)
    && (t.task.Idle? && row.status.Sending? ==> t.messages == 0)
    && (row.status.Pending? || row.status.Sending? ==> row.attempts == 0)
    && (row.status.Consumed? ==> t.accepted == 1 && row.attempts == t.wrong + 1)
    && (!row.status.Consumed? ==> t.accepted == 0 && row.attempts == t.wrong)
    && row.attempts <= MAX_ATTEMPTS && (row.attempts == MAX_ATTEMPTS ==> row.status.Locked? || row.status.Consumed?)
    && (row.status.Locked? ==> t.wrong == MAX_ATTEMPTS)
  }

  /** The captured version was drawn before the challenge began. */
  predicate Captured(o: Owners, c: Challenge) { c.version.Some? ==> c.version.value in o.issued }

  ghost predicate ChallengesFit(w: World)
  {
    forall id {:trigger Fits(w.challenges[id])} | id in w.challenges :: Fits(w.challenges[id]) && Captured(w.owners, w.challenges[id].row)
  }

  ghost predicate Invariant(w: World) { OwnersFit(w.owners) && ChallengesFit(w) }

  /** A challenge keeps what it is about, its log only grows, and a final status is final. */
  predicate Advances(a: Tracked, b: Tracked)
  {
    && b.row.user == a.row.user && b.row.phone == a.row.phone && b.row.purpose == a.row.purpose
    && b.row.version == a.row.version && b.row.session == a.row.session && b.row.expires == a.row.expires
    && a.wrong <= b.wrong && a.accepted <= b.accepted && a.messages <= b.messages
    && (!Active(a.row.status) ==> b.row == a.row && b.wrong == a.wrong && b.accepted == a.accepted)
  }

  ghost predicate AllAdvance(cs: Challenges, ds: Challenges)
  {
    forall id {:trigger ds[id]} {:trigger id in ds} | id in cs :: id in ds && Advances(cs[id], ds[id])
  }

  // ----- One step -----

  /** Replacing one challenge by one that advances it. */
  lemma OneAdvances(w: World, id: Id, t: Tracked)
    requires ChallengesFit(w) && id in w.challenges
    requires Fits(t) && Advances(w.challenges[id], t)
    ensures ChallengesFit(w.(challenges := w.challenges[id := t]))
    ensures AllAdvance(w.challenges, w.challenges[id := t])
  {
    var v := w.(challenges := w.challenges[id := t]);
    assert Fits(w.challenges[id]);
    forall k | k in v.challenges ensures Fits(v.challenges[k]) && Captured(v.owners, v.challenges[k].row) {
      if k != id { assert Fits(w.challenges[k]); }
    }
  }

  /** Drawing new versions takes nothing from what was captured. */
  lemma OwnersChange(w: World, o: Owners)
    requires ChallengesFit(w) && w.owners.issued <= o.issued
    ensures ChallengesFit(w.(owners := o))
  {
  }

  lemma SupersedeAdvances(t: Tracked)
    requires Fits(t)
    ensures Fits(Supersede(t)) && Advances(t, Supersede(t))
  {
  }

  lemma ApproveKeeps(w: World, r: Change, v: Version)
    requires Invariant(w) && v !in w.owners.issued
    ensures Invariant(ApproveChange(w, r, v)) && AllAdvance(w.challenges, ApproveChange(w, r, v).challenges)
    ensures Renews(w.owners, ApproveChange(w, r, v).owners)
  {
    if Approvable(w.owners, r) {
      ApprovalKeepsOwners(w.owners, r, v);
      var after := ApproveChange(w, r, v);
      forall id | id in w.challenges
        ensures Fits(after.challenges[id]) && Captured(after.owners, after.challenges[id].row)
        ensures Advances(w.challenges[id], after.challenges[id])
      {
        assert Fits(w.challenges[id]);
        SupersedeAdvances(w.challenges[id]);
      }
    }
  }

  lemma VersionForIsIssued(o: Owners, p: Phone)
    requires VersionsIssued(o)
    ensures VersionFor(o, p).Some? ==> VersionFor(o, p).value in o.issued
  {
  }

  lemma BeginKeeps(w: World, r: Request, newId: Id, now: Time)
    requires ChallengesFit(w) && VersionsIssued(w.owners) && newId !in w.challenges
    ensures ChallengesFit(Begin(w, r, newId, now)) && AllAdvance(w.challenges, Begin(w, r, newId, now).challenges)
  {
    if MayBegin(w.owners, r) {
      GiveWayKeeps(w, r.previous, r.session);
      VersionForIsIssued(w.owners, r.phone);
      var given := GiveWay(w.challenges, r.previous, r.session);
      var after := given[newId := Fresh(w.owners, r, now)];
      forall k | k in after ensures Fits(after[k]) && Captured(w.owners, after[k].row) {
        if k != newId { assert Fits(w.(challenges := given).challenges[k]); }
      }
    }
  }

  lemma GiveWayKeeps(w: World, previous: Option<Id>, session: Session)
    requires ChallengesFit(w)
    ensures ChallengesFit(w.(challenges := GiveWay(w.challenges, previous, session)))
    ensures AllAdvance(w.challenges, GiveWay(w.challenges, previous, session))
    ensures GiveWay(w.challenges, previous, session).Keys == w.challenges.Keys
  {
    if previous.Some? && previous.value in w.challenges && w.challenges[previous.value].row.session == session {
      assert Fits(w.challenges[previous.value]);
      SupersedeAdvances(w.challenges[previous.value]);
      OneAdvances(w, previous.value, Supersede(w.challenges[previous.value]));
    }
  }

  /** Delivery steps touch one challenge and no owner. */
  lemma DeliveryKeeps(w: World, step: Step)
    requires ChallengesFit(w)
    requires step.PrepareStep? || step.RecheckStep? || step.ReportStep? || step.QueueFailsStep?
    ensures ChallengesFit(Next(w, step)) && AllAdvance(w.challenges, Next(w, step).challenges)
    ensures Next(w, step).owners == w.owners
  {
    if step.id in w.challenges && Next(w, step) != w {
      var t := w.challenges[step.id];
      assert Fits(t);
      OneAdvances(w, step.id, Next(w, step).challenges[step.id]);
    }
  }

  lemma ProvenKeepsOwners(o: Owners, c: Challenge, g: Guess, v: Version)
    requires OwnersFit(o) && v !in o.issued && c.user.Some? && Proven(o, c, g, v).Some?
    ensures OwnersFit(Proven(o, c, g, v).value) && Renews(o, Proven(o, c, g, v).value)
  {
    var u := c.user.value;
    if c.purpose.Bind? {
      BindingKeepsOwners(o, u, c.phone, v);
    } else if u in o.approved && o.approved[u] == Binding(c.phone, c.version.value) {
      PromotionKeepsOwners(o, u, v);
    }
  }

  lemma ConsumeKeeps(w: World, g: Guess, v: Version, now: Time)
    requires Invariant(w) && v !in w.owners.issued
    ensures Invariant(Consume(w, g, v, now).0) && AllAdvance(w.challenges, Consume(w, g, v, now).0.challenges)
    ensures Renews(w.owners, Consume(w, g, v, now).0.owners)
  {
    if g.id in w.challenges && Open(w.challenges[g.id].row, g, now) {
      var t := w.challenges[g.id];
      assert Fits(t);
      if !Right(t.row, g) {
        OneAdvances(w, g.id, Miss(t));
      } else if Proven(w.owners, t.row, g, v).Some? {
        var o := Proven(w.owners, t.row, g, v).value;
        ProvenKeepsOwners(w.owners, t.row, g, v);
        OneAdvances(w, g.id, Accept(t));
        OwnersChange(w.(challenges := w.challenges[g.id := Accept(t)]), o);
      }
    }
  }

  lemma StepKeeps(w: World, step: Step)
    requires Invariant(w) && Enabled(w, step)
    ensures Invariant(Next(w, step)) && AllAdvance(w.challenges, Next(w, step).challenges)
    ensures Renews(w.owners, Next(w, step).owners)
  {
    match step
    case ApproveStep(r, v) => ApproveKeeps(w, r, v);
    case BeginStep(r, id, now) => BeginKeeps(w, r, id, now);
    case ConsumeStep(g, v, now) => ConsumeKeeps(w, g, v, now);
    case Elsewhere(contacts, members) => OwnersChange(w, Next(w, step).owners);
    case _ => DeliveryKeeps(w, step);
  }

  // ----- Whole runs -----

  /** No number has two owners and no user is in both tables, whatever happens. */
  lemma {:induction false} RunKeepsInvariant(worlds: seq<World>, steps: seq<Step>, n: nat)
    requires Run(worlds, steps) && n < |worlds|
    ensures Invariant(worlds[n])
  {
    if n > 0 {
      RunKeepsInvariant(worlds, steps, n - 1);
      StepKeeps(worlds[n - 1], steps[n - 1]);
    }
  }

  lemma StepOfRunAdvances(worlds: seq<World>, steps: seq<Step>, j: nat)
    requires Run(worlds, steps) && j < |steps|
    ensures AllAdvance(worlds[j].challenges, worlds[j + 1].challenges) && Renews(worlds[j].owners, worlds[j + 1].owners)
  {
    RunKeepsInvariant(worlds, steps, j);
    StepKeeps(worlds[j], steps[j]);
  }

  lemma {:induction false} RunAdvances(worlds: seq<World>, steps: seq<Step>, j: nat, n: nat)
    requires Run(worlds, steps) && j <= n < |worlds|
    ensures AllAdvance(worlds[j].challenges, worlds[n].challenges)
    ensures Renews(worlds[j].owners, worlds[n].owners)
    decreases n - j
  {
    if j < n {
      StepOfRunAdvances(worlds, steps, j);
      RunAdvances(worlds, steps, j + 1, n);
      var a, b, c := worlds[j], worlds[j + 1], worlds[n];
      RenewsTransitive(a.owners, b.owners, c.owners);
      AdvancesTransitive(a.challenges, b.challenges, c.challenges);
    }
  }

  lemma AdvancesTransitive(a: Challenges, b: Challenges, c: Challenges)
    requires AllAdvance(a, b) && AllAdvance(b, c)
    ensures AllAdvance(a, c)
  {
    forall id | id in a ensures id in c && Advances(a[id], c[id]) {
      assert id in b && Advances(a[id], b[id]) && Advances(b[id], c[id]);
    }
  }

  /** A challenge that ended (failed, superseded, locked, consumed) never changes again, so
      its code is never accepted later. */
  lemma EndedStaysEnded(worlds: seq<World>, steps: seq<Step>, j: nat, n: nat, id: Id)
    requires Run(worlds, steps) && j <= n < |worlds| && id in worlds[j].challenges
    requires !Active(worlds[j].challenges[id].row.status)
    ensures id in worlds[n].challenges && worlds[n].challenges[id].row == worlds[j].challenges[id].row
    ensures worlds[n].challenges[id].accepted == worlds[j].challenges[id].accepted
  {
    RunAdvances(worlds, steps, j, n);
    assert Advances(worlds[j].challenges[id], worlds[n].challenges[id]);
  }

  /** The step accepts a code. */
  ghost predicate Accepts(w: World, step: Step)
  {
    step.ConsumeStep? && Consume(w, step.guess, step.newVersion, step.now).1
  }

  /** A code is accepted only while its challenge is sent and unexpired, after at most four
      wrong guesses, with the very code drawn for it; no second acceptance ever follows. */
  lemma AcceptedOnce(worlds: seq<World>, steps: seq<Step>, n: nat, m: nat)
    requires Run(worlds, steps) && n < |steps| && Accepts(worlds[n], steps[n])
    ensures var t := worlds[n].challenges[steps[n].guess.id];
      && t.row.status.Sent? && steps[n].now < t.row.expires && t.wrong < MAX_ATTEMPTS && t.accepted == 0
      && t.row.code.Some? && t.row.code == steps[n].guess.submitted
    ensures m < |steps| && m != n && Accepts(worlds[m], steps[m]) ==> steps[m].guess.id != steps[n].guess.id
  {
    RunKeepsInvariant(worlds, steps, n);
    var id := steps[n].guess.id;
    assert Fits(worlds[n].challenges[id]);
    if m < |steps| && m != n && Accepts(worlds[m], steps[m]) && steps[m].guess.id == id {
      var (first, second) := if m < n then (m, n) else (n, m);
      EndedStaysEnded(worlds, steps, first + 1, second, id);
      assert false;
    }
  }

  /** However often a delivery task runs, at most one message leaves for a challenge. */
  lemma OneMessage(worlds: seq<World>, steps: seq<Step>, n: nat, id: Id)
    requires Run(worlds, steps) && n < |worlds| && id in worlds[n].challenges
    ensures worlds[n].challenges[id].messages <= 1
    ensures worlds[n].challenges[id].row.code.Some? <==>
      worlds[n].challenges[id].row.status.Sending? || worlds[n].challenges[id].row.status.Sent?
  {
    RunKeepsInvariant(worlds, steps, n);
    assert Fits(worlds[n].challenges[id]);
  }

  /** A login succeeds only if the binding captured when the challenge began stood at every
      moment from then until the code was accepted. */
  lemma LoginNeedsUnbrokenBinding(worlds: seq<World>, steps: seq<Step>, j: nat, n: nat, id: Id)
    requires Run(worlds, steps) && j <= n < |steps| && id in worlds[j].challenges
    requires Accepts(worlds[n], steps[n]) && steps[n].guess.id == id
    requires worlds[j].challenges[id].row.purpose.Login?
    ensures var c := worlds[j].challenges[id].row;
      c.user.Some? && c.version.Some? && Stands(worlds[j].owners, c.user.value, Binding(c.phone, c.version.value))
  {
    RunKeepsInvariant(worlds, steps, j);
    RunAdvances(worlds, steps, j, n);
    assert Fits(worlds[j].challenges[id]);
    assert Advances(worlds[j].challenges[id], worlds[n].challenges[id]);
    var c := worlds[n].challenges[id].row;
    assert CurrentBinding(worlds[n].owners, c);
    assert Binding(c.phone, c.version.value).version in worlds[j].owners.issued;
  }

  /** At every moment a number belongs to at most one user across both tables, and no user
      is in both. */
  lemma NumbersHaveOneOwner(worlds: seq<World>, steps: seq<Step>, n: nat, u: User, b: Binding, v: User, c: Binding)
    requires Run(worlds, steps) && n < |worlds|
    requires Stands(worlds[n].owners, u, b) && Stands(worlds[n].owners, v, c) && b.phone == c.phone
    ensures u == v && b == c
    ensures u in worlds[n].owners.verified <==> u !in worlds[n].owners.approved
  {
    RunKeepsInvariant(worlds, steps, n);
  }

  /** A number becomes verified for a user only by an accepted code sent to that number for
      that user. */
  lemma OnlyProofVerifies(w: World, step: Step, u: User, b: Binding)
    requires Invariant(w) && Enabled(w, step)
    requires u in Next(w, step).owners.verified && Next(w, step).owners.verified[u] == b
    requires !(u in w.owners.verified && w.owners.verified[u] == b)
    ensures Accepts(w, step)
    ensures var c := w.challenges[step.guess.id].row; c.user == Some(u) && c.phone == b.phone
  {
  }

  /** Nothing about this user's numbers changed. */
  predicate Untouched(o: Owners, p: Owners, u: User)
  {
    && (u in p.verified <==> u in o.verified) && (u in o.verified ==> p.verified[u] == o.verified[u])
    && (u in p.approved <==> u in o.approved) && (u in o.approved ==> p.approved[u] == o.approved[u])
    && ContactOf(p, u) == ContactOf(o, u)
  }

  /** What acceptance means: the challenge's user now owns the verified number and waits for
      no other, a bound number is also the contact of an existing profile, and nobody else's
      numbers change. */
  lemma AcceptanceSettlesOwner(w: World, step: Step, v: User)
    requires Invariant(w) && Enabled(w, step) && Accepts(w, step)
    ensures var (c, o, p) := (w.challenges[step.guess.id].row, w.owners, Next(w, step).owners);
      && c.user.Some? && c.user.value in p.verified && p.verified[c.user.value].phone == c.phone
      && c.user.value !in p.approved
      && (c.purpose.Bind? && c.user.value in o.contacts ==> p.contacts[c.user.value] == Plain(c.phone))
      && (v != c.user.value ==> Untouched(o, p, v))
  {
    var c := w.challenges[step.guess.id].row;
    assert Proven(w.owners, c, step.guess, step.newVersion).Some?;
  }

  /** What an approved new number means: the old proof is gone, the new number waits for
      proof, no other user is touched, and no open code of the user is left. */
  lemma ApprovalResetsOwner(w: World, step: Step, v: User, id: Id)
    requires step.ApproveStep? && Approvable(w.owners, step.change)
    requires CurrentPhone(w.owners, step.change.user) != Wanted(step.change)
    ensures var (u, o, p) := (step.change.user, w.owners, Next(w, step).owners);
      && u !in p.verified && u in p.approved && step.change.phone == Some(p.approved[u].phone)
      && CurrentPhone(p, u) == ContactOf(p, u) == Plain(p.approved[u].phone)
      && (v != u ==> Untouched(o, p, v))
    ensures id in w.challenges && w.challenges[id].row.user == Some(step.change.user) ==>
      !Active(Next(w, step).challenges[id].row.status)
  {
  }

  /** Step j accepts a code that was sent to number p for user u. */
  ghost predicate Proves(worlds: seq<World>, steps: seq<Step>, j: nat, u: User, p: Phone)
    requires j < |steps| <= |worlds|
  {
    Accepts(worlds[j], steps[j]) &&
    var c := worlds[j].challenges[steps[j].guess.id].row;
    c.user == Some(u) && c.phone == p
  }

  /** Every verified number was proven by its user at some earlier step. */
  lemma {:induction false} VerifiedWasProven(worlds: seq<World>, steps: seq<Step>, n: nat, u: User)
    requires Run(worlds, steps) && n < |worlds| && u in worlds[n].owners.verified
    ensures exists j :: 0 <= j < n && Proves(worlds, steps, j, u, worlds[n].owners.verified[u].phone)
  {
    if n > 0 {
      var b, before := worlds[n].owners.verified[u], worlds[n - 1].owners.verified;
      if u in before && before[u] == b {
        VerifiedWasProven(worlds, steps, n - 1, u);
        var j :| 0 <= j < n - 1 && Proves(worlds, steps, j, u, b.phone);
        assert j < n;
      } else {
        NewlyVerified(worlds, steps, n - 1, u, b);
      }
    }
  }

  lemma NewlyVerified(worlds: seq<World>, steps: seq<Step>, j: nat, u: User, b: Binding)
    requires Run(worlds, steps) && j < |steps|
    requires u in worlds[j + 1].owners.verified && worlds[j + 1].owners.verified[u] == b
    requires !(u in worlds[j].owners.verified && worlds[j].owners.verified[u] == b)
    ensures Proves(worlds, steps, j, u, b.phone)
  {
    RunKeepsInvariant(worlds, steps, j);
    OnlyProofVerifies(worlds[j], steps[j], u, b);
  }

  /** An approved identity change ends every code the user had been sent or was waiting for. */
  lemma ApprovalEndsCodes(worlds: seq<World>, steps: seq<Step>, j: nat, n: nat, id: Id)
    requires Run(worlds, steps) && j < n < |steps|
    requires steps[j].ApproveStep? && Approvable(worlds[j].owners, steps[j].change)
    requires id in worlds[j].challenges && worlds[j].challenges[id].row.user == Some(steps[j].change.user)
    ensures !(Accepts(worlds[n], steps[n]) && steps[n].guess.id == id)
  {
    assert id in worlds[j + 1].challenges && !Active(worlds[j + 1].challenges[id].row.status);
    EndedStaysEnded(worlds, steps, j + 1, n, id);
  }

  // ----- What each transaction promises its caller -----

  /** A challenge begun for a login names the user whose binding stands, under its present
      version; one begun to bind names a number nobody has. */
  lemma BegunChallengeFits(o: Owners, r: Request, now: Time)
    requires OwnersFit(o) && MayBegin(o, r)
    ensures var c := Fresh(o, r, now).row;
      && (r.purpose.Login? && c.user.Some? ==> CurrentBinding(o, c))
      && (r.purpose.Bind? ==> c.user == r.actor && c.version.None? && Holders(o.verified, r.phone) == {} == Holders(o.approved, r.phone))
  {
    if r.purpose.Bind? {
      NobodyHolds(o.verified, r.phone);
      NobodyHolds(o.approved, r.phone);
    }
  }

  lemma BeginPromise(w: World, r: Request, newId: Id, now: Time)
    requires Invariant(w) && newId !in w.challenges
    ensures var w' := Begin(w, r, newId, now);
      && Invariant(w') && AllAdvance(w.challenges, w'.challenges)
      && (MayBegin(w.owners, r) && r.purpose.Login? && w'.challenges[newId].row.user.Some? ==> CurrentBinding(w.owners, w'.challenges[newId].row))
      && (MayBegin(w.owners, r) && r.purpose.Bind? ==>
            w'.challenges[newId].row.user == r.actor && forall u, b :: Stands(w.owners, u, b) ==> b.phone != r.phone)
  {
    BeginKeeps(w, r, newId, now);
    if MayBegin(w.owners, r) {
      BegunChallengeFits(w.owners, r, now);
      if r.purpose.Bind? {
        forall u, b | Stands(w.owners, u, b) ensures b.phone != r.phone {
          assert u in Holders(w.owners.verified, b.phone) + Holders(w.owners.approved, b.phone);
        }
      }
    }
  }

  lemma NobodyHolds(table: map<User, Binding>, p: Phone)
    requires Holders(table, p) == {}
    ensures OwnerIn(table, p).None?
  {
  }

  /** An accepted guess was the drawn code of a sent, unexpired challenge, after at most four
      wrong ones, accepted for the first time; its user now owns the verified number. */
  ghost predicate AcceptedFairly(w: World, w': World, g: Guess, now: Time)
  {
    g.id in w.challenges && g.id in w'.challenges &&
    var t := w.challenges[g.id];
    && t.row.status.Sent? && now < t.row.expires && t.wrong < MAX_ATTEMPTS && t.row.code.Some? && t.row.code == g.submitted
    && t.accepted == 0 && w'.challenges[g.id].accepted == 1 && w'.challenges[g.id].row.status.Consumed?
    && t.row.user.Some? && t.row.user.value !in w'.owners.approved
    && t.row.user.value in w'.owners.verified && w'.owners.verified[t.row.user.value].phone == t.row.phone
  }

  /** A refused guess moves no number; a wrong one is counted, and the fifth locks. */
  ghost predicate RefusedSafely(w: World, w': World, g: Guess)
  {
    && w'.owners == w.owners && w'.challenges.Keys == w.challenges.Keys
    && (forall k | k in w.challenges && k != g.id :: w'.challenges[k] == w.challenges[k])
    && (g.id in w.challenges && w'.challenges[g.id] != w.challenges[g.id] ==>
          var t := w'.challenges[g.id];
          && t.wrong == w.challenges[g.id].wrong + 1 <= MAX_ATTEMPTS
          && (t.wrong == MAX_ATTEMPTS <==> t.row.status.Locked? && t.row.code.None?))
  }

  lemma GuessPromise(w: World, g: Guess, v: Version, now: Time)
    requires Invariant(w) && v !in w.owners.issued
    ensures var (w', accepted) := Consume(w, g, v, now);
      && Invariant(w')
      && (if accepted then AcceptedFairly(w, w', g, now) else RefusedSafely(w, w', g))
  {
    ConsumeKeeps(w, g, v, now);
    if g.id in w.challenges {
      assert Fits(w.challenges[g.id]);
      if Consume(w, g, v, now).1 {
        AcceptanceSettlesOwner(w, ConsumeStep(g, v, now), 0);
      }
    }
  }
}
