/** The phone sign-in code as it runs: each method is one transaction over the tables. */
module PhoneDesk {
  import opened Wrappers
  import opened PhoneIdentity
  import opened PhoneAuth
  import PhoneLaws

  class Desk {
    var verified: map<User, Binding>
    var approved: map<User, Binding>
    var contacts: map<User, Contact>
    var members: set<User>
    ghost var issued: set<Version>
    var challenges: Challenges

    ghost function Owned(): Owners reads this { Owners(verified, approved, contacts, members, issued) }

    ghost function State(): World reads this { World(Owned(), challenges) }

    /** One owner per number, and every challenge's row fits what happened to it. */
    ghost predicate Valid() reads this { Invariant(State()) }

    constructor ()
      ensures Valid() && verified == map[] && approved == map[] && challenges == map[]
    {
      verified, approved, contacts, members, issued, challenges := map[], map[], map[], {}, {}, map[];
    }

    predicate Locked(u: User) reads this { u in members || u in verified || u in approved }

    predicate MayBind(u: User, p: Phone)
      reads this
      ensures MayBind(u, p) == CanBind(Owned(), u, p)
    {
      var contact := if u in contacts then contacts[u] else Empty;
      && u !in approved && Holders(approved, p) == {}
      && (!Locked(u) || Accords(contact, p))
    }

    /** The number an owner sees for this guest. */
    function Shown(u: User): Contact
      reads this
      ensures Shown(u) == CurrentPhone(Owned(), u)
    {
      if u in approved then Plain(approved[u].phone)
      else if u in verified then Plain(verified[u].phone)
      else if u in contacts then contacts[u] else Empty
    }

    /** Whether the page the owner confirmed is still current and the number is free. */
    method CheckChange(r: Change) returns (ok: bool)
      ensures ok == Approvable(Owned(), r)
    {
      var current := Shown(r.user);
      ok := r.permitted && r.expectedPhone == current
        && r.expectedBinding == VersionIn(verified, r.user) && r.expectedPending == VersionIn(approved, r.user);
      if ok && r.phone.Some? {
        ok := Holders(verified, r.phone.value) - {r.user} == {} && Holders(approved, r.phone.value) - {r.user} == {};
      }
      if !ok || (current != Empty && r.phone.None?) { return false; }
      ok := r.emailChanged || current != Wanted(r);
    }

    /** The new number replaces the verified one and waits for proof. */
    method ReplaceNumber(r: Change, newVersion: Version)
      requires Approvable(Owned(), r)
      modifies this`verified, this`approved, this`contacts, this`issued
      ensures Owned() == Approved(old(Owned()), r, newVersion)
    {
      var phoneChanged := Shown(r.user) != Wanted(r);
      if phoneChanged {
        verified := verified - {r.user};
        approved := approved - {r.user};
        approved := approved[r.user := Binding(r.phone.value, newVersion)];
        contacts := contacts[r.user := Plain(r.phone.value)];
        issued := issued + {newVersion};
        assert approved == old(approved)[r.user := Binding(r.phone.value, newVersion)];
      } else {
        contacts := contacts[r.user := if r.user in contacts then contacts[r.user] else Empty];
      }
    }

    /** An owner-approved change of a guest's number or e-mail ends the guest's open codes; a
        new number loses the old proof, and nobody else is touched. */
    method Approve(r: Change, newVersion: Version) returns (ok: bool)
      requires Valid() && newVersion !in issued
      modifies this
      ensures Valid() && State() == ApproveChange(old(State()), r, newVersion)
      ensures ok ==> forall id | id in challenges && challenges[id].row.user == Some(r.user) :: !Active(challenges[id].row.status)
      ensures ok ==> r.phone.None? || CurrentPhone(Owned(), r.user) == Plain(r.phone.value)
      ensures ok && old(CurrentPhone(Owned(), r.user)) != Wanted(r) ==> r.user !in verified && r.user in approved
      ensures forall u | u != r.user :: Untouched(old(Owned()), Owned(), u)
      ensures !ok ==> State() == old(State())
      ensures ok <==> PhoneLaws.Confirmable(old(Owned()), r)
    {
      PhoneLaws.ApproveExactly(Owned(), r);
      PhoneLaws.ApprovePromise(State(), r, newVersion);
      ok := WriteChange(r, newVersion);
    }

    method WriteChange(r: Change, newVersion: Version) returns (ok: bool)
      modifies this
      ensures ok == Approvable(old(Owned()), r) && State() == ApproveChange(old(State()), r, newVersion)
    {
      ok := CheckChange(r);
      if !ok { return; }
      ReplaceNumber(r, newVersion);
      challenges := map id | id in challenges ::
        if challenges[id].row.user == Some(r.user) then Supersede(challenges[id]) else challenges[id];
    }

    /** Starts a challenge for a number. A login's challenge captures the binding that stands,
        a binding's number belongs to nobody, and the session's earlier challenge is over. */
    method BeginChallenge(r: Request, newId: Id, now: Time) returns (began: bool)
      requires Valid() && newId !in challenges
      modifies this`challenges
      ensures Valid() && State() == Begin(old(State()), r, newId, now)
      ensures AllAdvance(old(challenges), challenges)
      ensures began ==> newId in challenges && challenges[newId].row.status.Pending? && challenges[newId].row.phone == r.phone
      ensures began && r.purpose.Login? && challenges[newId].row.user.Some? ==> CurrentBinding(Owned(), challenges[newId].row)
      ensures began && r.purpose.Bind? ==> challenges[newId].row.user == r.actor && forall u, b :: Stands(Owned(), u, b) ==> b.phone != r.phone
      ensures began && r.previous.Some? && r.previous.value in old(challenges) && old(challenges)[r.previous.value].row.session == r.session ==>
        !Active(challenges[r.previous.value].row.status)
      ensures !began ==> challenges == old(challenges)
      ensures began <==> PhoneLaws.Begins(old(Owned()), r)
      ensures began ==> PhoneLaws.Begun(old(Owned()), r, now, challenges[newId].row)
    {
      PhoneLaws.BeginExactly(State(), r, newId, now);
      BeginPromise(State(), r, newId, now);
      var binding, pending := OwnerIn(verified, r.phone), OwnerIn(approved, r.phone);
      var user := if binding.Some? then binding else pending;
      if r.purpose.Bind? {
        user := r.actor;
        if r.actor.None? || !r.allowed || !r.emailVerified || !r.recent || r.actor.value in verified
           || Holders(verified, r.phone) != {} || Holders(approved, r.phone) != {} {
          return false;
        }
        if !MayBind(r.actor.value, r.phone) { return false; }
      } else if r.actor.Some? {
        return false;
      }
      if !r.admitted { return false; }
      if r.previous.Some? && r.previous.value in challenges && challenges[r.previous.value].row.session == r.session {
        challenges := challenges[r.previous.value := Supersede(challenges[r.previous.value])];
      }
      var version :=
        if binding.Some? then VersionIn(verified, binding.value)
        else if pending.Some? then VersionIn(approved, pending.value)
        else None;
      challenges := challenges[newId := Tracked(
        Challenge(if r.allowed then user else None, r.phone, r.purpose, version, r.session, None, Pending, 0, now + TTL),
        Idle, 0, 0, 0)];
      return true;
    }

    /** A delivery task takes a pending challenge and draws its code; it is the only task ever
        to do so, and nothing was sent before. */
    method TakeForDelivery(id: Id, code: nat, allowed: bool, now: Time) returns (taken: bool)
      requires Valid() && code < CODES
      modifies this`challenges
      ensures Valid() && State() == Prepare(old(State()), id, code, allowed, now)
      ensures AllAdvance(old(challenges), challenges)
      ensures taken ==> id in challenges && old(challenges)[id].task.Idle? && challenges[id].task.Checking?
      ensures taken ==> challenges[id].messages == 0 && now < challenges[id].row.expires
      ensures taken && challenges[id].row.purpose.Login? ==> CurrentBinding(Owned(), challenges[id].row)
      ensures !taken ==> challenges == old(challenges)
      ensures taken <==> PhoneLaws.Takeable(old(State()), id, allowed, now)
    {
      PhoneLaws.PrepareExactly(State(), id, code, allowed, now);
      DeliveryKeeps(State(), PrepareStep(id, code, allowed, now));
      if id !in challenges { return false; }
      assert Fits(challenges[id]);
      var row := challenges[id].row;
      if !row.status.Pending? || row.expires <= now || row.user.None? || !allowed { return false; }
      if row.purpose.Login? && !Current(row) { return false; }
      if row.purpose.Bind? && !MayBind(row.user.value, row.phone) { return false; }
      row := row.(code := Some(code), status := Sending);
      challenges := challenges[id := challenges[id].(row := row, task := Checking)];
      return true;
    }

    predicate Current(c: Challenge)
      reads this
      ensures Current(c) == CurrentBinding(Owned(), c)
    {
      c.user.Some? && c.version.Some? &&
      var (u, b) := (c.user.value, Binding(c.phone, c.version.value));
      (u in verified && verified[u] == b) || (u in approved && approved[u] == b)
    }

    /** The last look before the provider is called: a message leaves only for a challenge
        that is unexpired and was not ended meanwhile, and it is the first and only one. */
    method CheckBeforeSend(id: Id, now: Time) returns (send: bool)
      requires Valid() && id in challenges && challenges[id].task.Checking?
      modifies this`challenges
      ensures Valid() && State() == Recheck(old(State()), id, now)
      ensures AllAdvance(old(challenges), challenges)
      ensures send ==> old(challenges)[id].messages == 0 && challenges[id].messages == 1
      ensures send ==> challenges[id].row.status.Sending? && challenges[id].row.code.Some? && now < challenges[id].row.expires
      ensures !send ==> challenges[id].messages == 0 && challenges[id].task.Idle?
      ensures send <==> old(challenges)[id].row.status.Sending? && now < old(challenges)[id].row.expires
    {
      DeliveryKeeps(State(), RecheckStep(id, now));
      assert Fits(challenges[id]);
      var t := challenges[id];
      send := t.row.status.Sending? && t.row.expires > now;
      challenges := challenges[id := if send then t.(task := Reporting, messages := t.messages + 1) else t.(task := Idle)];
    }

    /** The result of the call: it opens the challenge for guesses or fails it, and does not
        revive a challenge that ended meanwhile. */
    method RecordDelivery(id: Id, ok: bool)
      requires Valid() && id in challenges && !challenges[id].task.Idle? && (ok ==> challenges[id].task.Reporting?)
      modifies this`challenges
      ensures Valid() && State() == Report(old(State()), id, ok)
      ensures AllAdvance(old(challenges), challenges)
      ensures challenges[id].task.Idle? && challenges[id].messages == old(challenges)[id].messages
      ensures !Active(old(challenges)[id].row.status) ==> challenges[id].row == old(challenges)[id].row
      ensures old(challenges)[id].row.status.Sending? ==> (challenges[id].row.status.Sent? <==> ok) && (challenges[id].row.code.Some? <==> ok)
    {
      DeliveryKeeps(State(), ReportStep(id, ok));
      assert Fits(challenges[id]);
      var t := challenges[id].(task := Idle);
      if t.row.status.Sending? {
        t := t.(row := if ok then t.row.(status := Sent) else t.row.(status := Failed, code := None));
      }
      challenges := challenges[id := t];
    }

    /** The broker refused the task: a challenge still pending ends without a message, and one
        some task already took is left to it. */
    method RecordQueueFailure(id: Id)
      requires Valid()
      modifies this`challenges
      ensures Valid() && State() == QueueFails(old(State()), id)
      ensures AllAdvance(old(challenges), challenges)
      ensures id in challenges ==> !challenges[id].row.status.Pending?
      ensures id in old(challenges) && old(challenges)[id].row.status.Pending? ==>
        challenges == old(challenges)[id := old(challenges)[id].(row := old(challenges)[id].row.(status := Failed))]
      ensures !(id in old(challenges) && old(challenges)[id].row.status.Pending?) ==> challenges == old(challenges)
      ensures id in challenges && challenges[id] != old(challenges)[id] ==> !Active(challenges[id].row.status) && challenges[id].messages == 0
    {
      DeliveryKeeps(State(), QueueFailsStep(id));
      assert id in challenges ==> Fits(challenges[id]);
      if id in challenges && challenges[id].row.status.Pending? {
        challenges := challenges[id := challenges[id].(row := challenges[id].row.(status := Failed))];
      }
    }

    /** Stores a proven number unless the account or the number already has a verified one. */
    method StoreProven(u: User, p: Phone, newVersion: Version) returns (ok: bool)
      modifies this`verified, this`issued
      ensures ok == Bound(old(Owned()), u, p, newVersion).Some?
      ensures ok ==> Owned() == Bound(old(Owned()), u, p, newVersion).value
      ensures !ok ==> Owned() == old(Owned())
    {
      if u in verified || Holders(verified, p) != {} { return false; }
      verified := verified[u := Binding(p, newVersion)];
      issued := issued + {newVersion};
      return true;
    }

    /** Applies a right guess to the tables, or leaves them alone. */
    method Prove(c: Challenge, g: Guess, newVersion: Version) returns (ok: bool)
      requires c.user.Some?
      modifies this`verified, this`approved, this`contacts, this`issued
      ensures ok == Proven(old(Owned()), c, g, newVersion).Some?
      ensures Owned() == if ok then Proven(old(Owned()), c, g, newVersion).value else old(Owned())
    {
      var u := c.user.value;
      if c.purpose.Bind? {
        if g.actor != c.user || !g.recent || !MayBind(u, c.phone) { return false; }
        ok := StoreProven(u, c.phone, newVersion);
        if ok && u in contacts {
          contacts := contacts[u := Plain(c.phone)];
        }
      } else {
        if g.actor.Some? || !Current(c) { return false; }
        if u in approved && approved[u] == Binding(c.phone, c.version.value) {
          if u in verified { return false; }
          var before := approved;
          approved := approved - {u};
          ok := StoreProven(u, c.phone, newVersion);
          if !ok {
            approved := before;
          }
        } else {
          ok := true;
        }
      }
    }

    /** One guess: wrong ones are counted, the fifth locks, a right one is used up. */
    method Guess(g: Guess, newVersion: Version, now: Time) returns (accepted: bool)
      requires Valid() && newVersion !in issued
      modifies this
      ensures Valid() && (State(), accepted) == Consume(old(State()), g, newVersion, now)
      ensures accepted ==> AcceptedFairly(old(State()), State(), g, now)
      ensures !accepted ==> RefusedSafely(old(State()), State(), g)
      ensures accepted <==> PhoneLaws.Acceptable(old(State()), g, now)
      ensures !accepted ==> PhoneLaws.MissCounted(old(State()), State(), g, now)
    {
      PhoneLaws.AcceptExactly(State(), g, newVersion, now);
      if !PhoneLaws.Acceptable(State(), g, now) {
        PhoneLaws.GuessCounts(State(), g, newVersion, now);
      }
      GuessPromise(State(), g, newVersion, now);
      if g.id !in challenges { return false; }
      var t := challenges[g.id];
      var row := t.row;
      if !row.status.Sent? || row.expires <= now || row.attempts >= MAX_ATTEMPTS || row.session != g.session
         || row.user.None? || !g.allowed {
        return false;
      }
      row := row.(attempts := row.attempts + 1);
      if g.submitted.None? || row.code != g.submitted {
        if row.attempts >= MAX_ATTEMPTS {
          row := row.(status := PhoneAuth.Locked, code := None);
        }
        challenges := challenges[g.id := t.(row := row, wrong := t.wrong + 1)];
        return false;
      }
      accepted := Prove(t.row, g, newVersion);
      if accepted {
        row := row.(status := Consumed, code := None);
        challenges := challenges[g.id := t.(row := row, accepted := t.accepted + 1)];
      }
    }
  }
}
