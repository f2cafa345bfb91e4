/** When a code is begun, sent, counted and accepted, in the fields of owners and challenges. */
module PhoneLaws {
  import opened Wrappers
  import opened PhoneIdentity
  import opened PhoneAuth

  // ----- Wrong guesses over a run -----

  /** The guess is at an open challenge, made in time from its own session by an allowed account, with
      digits that are missing or not its code. */
  predicate WrongTry(w: World, g: Guess, now: Time)
  {
    g.id in w.challenges &&
    var c := w.challenges[g.id].row;
    && c.status == Sent && now < c.expires && c.user.Some? && g.allowed && g.session == c.session
    && (g.submitted.None? || g.submitted != c.code)
  }

  /** The step is such a guess at challenge id. */
  predicate WrongGuess(w: World, step: Step, id: Id) { step.ConsumeStep? && step.guess.id == id && WrongTry(w, step.guess, step.now) }

  ghost function WrongGuesses(worlds: seq<World>, steps: seq<Step>, n: nat, id: Id): set<nat>
    requires n <= |steps| <= |worlds|
  {
    set j: nat | j < n && WrongGuess(worlds[j], steps[j], id)
  }

  lemma GuessesGrow(worlds: seq<World>, steps: seq<Step>, n: nat, id: Id)
    requires n < |steps| <= |worlds|
    ensures |WrongGuesses(worlds, steps, n + 1, id)| == |WrongGuesses(worlds, steps, n, id)| + if WrongGuess(worlds[n], steps[n], id) then 1 else 0
  {
    assert WrongGuesses(worlds, steps, n + 1, id) == WrongGuesses(worlds, steps, n, id) + if WrongGuess(worlds[n], steps[n], id) then {n} else {};
  }

  /** One step raises a challenge's count exactly when it is a wrong guess at it. */
  lemma StepCounts(w: World, step: Step, id: Id)
    requires Invariant(w) && Enabled(w, step)
    ensures id in Next(w, step).challenges ==>
      var (v, before) := (Next(w, step).challenges[id].wrong, if id in w.challenges then w.challenges[id].wrong else 0);
      v == before + if WrongGuess(w, step, id) then 1 else 0
    ensures id in w.challenges ==> id in Next(w, step).challenges
  {
    if id in w.challenges { assert Fits(w.challenges[id]); }
  }

  lemma {:induction false} CountedGuesses(worlds: seq<World>, steps: seq<Step>, n: nat, id: Id)
    requires Run(worlds, steps) && n < |worlds|
    ensures |WrongGuesses(worlds, steps, n, id)| == if id in worlds[n].challenges then worlds[n].challenges[id].wrong else 0
  {
    if n == 0 {
      assert WrongGuesses(worlds, steps, 0, id) == {};
    } else {
      CountedGuesses(worlds, steps, n - 1, id);
      GuessesGrow(worlds, steps, n - 1, id);
      RunKeepsInvariant(worlds, steps, n - 1);
      StepCounts(worlds[n - 1], steps[n - 1], id);
    }
  }

  /** However a run goes, at most five wrong guesses at a challenge are ever made while it is open;
      after the fifth it is locked without a code, and no later guess at it is accepted. */
  lemma FiveGuesses(worlds: seq<World>, steps: seq<Step>, n: nat, m: nat, id: Id)
    requires Run(worlds, steps) && n < |worlds|
    ensures |WrongGuesses(worlds, steps, n, id)| <= 5
    ensures |WrongGuesses(worlds, steps, n, id)| == 5 ==>
      id in worlds[n].challenges && worlds[n].challenges[id].row.status == Locked && worlds[n].challenges[id].row.code.None?
    ensures |WrongGuesses(worlds, steps, n, id)| == 5 && n <= m < |steps| ==> !(Accepts(worlds[m], steps[m]) && steps[m].guess.id == id)
  {
    CountedGuesses(worlds, steps, n, id);
    RunKeepsInvariant(worlds, steps, n);
    if id in worlds[n].challenges {
      assert Fits(worlds[n].challenges[id]);
      if worlds[n].challenges[id].wrong == 5 && n <= m < |steps| {
        EndedStaysEnded(worlds, steps, n, m, id);
      }
    }
  }

  /** A wrong guess at an open challenge raises its counts by one and locks it at the fifth; a guess
      that is none of these, and is not accepted, changes nothing. */
  ghost predicate MissCounted(w: World, w': World, g: Guess, now: Time)
  {
    if WrongTry(w, g, now) then
      && g.id in w'.challenges
      && var (t, t') := (w.challenges[g.id], w'.challenges[g.id]);
         && t'.wrong == t.wrong + 1 && t'.row.attempts == t.row.attempts + 1
         && (if t'.wrong == 5 then t'.row.status == Locked && t'.row.code.None? else t'.row.status == Sent && t'.row.code == t.row.code)
    else w' == w
  }

  lemma GuessCounts(w: World, g: Guess, v: Version, now: Time)
    requires Invariant(w) && !Consume(w, g, v, now).1
    ensures MissCounted(w, Consume(w, g, v, now).0, g, now)
  {
    if g.id in w.challenges { assert Fits(w.challenges[g.id]); }
  }

  // ----- When each transaction goes through -----

  /** Nobody in the table has the number. */
  predicate Nobody(table: map<User, Binding>, p: Phone) { forall u | u in table :: table[u].phone != p }

  lemma NobodyExactly(table: map<User, Binding>, p: Phone)
    ensures Nobody(table, p) <==> Holders(table, p) == {}
  {
    if Holders(table, p) == {} {
      forall u | u in table ensures table[u].phone != p {
        assert u !in Holders(table, p);
      }
    }
  }

  /** The number may still become this user's: nobody waits to prove it, the user waits for no other,
      and a user with a membership or a verified number has it as the contact, or none. */
  predicate Bindable(o: Owners, u: User, p: Phone)
  {
    && u !in o.approved && Nobody(o.approved, p)
    && (u in o.members || u in o.verified ==>
          u !in o.contacts || o.contacts[u] == Empty || (o.contacts[u].Number? && o.contacts[u].phone == p))
  }

  lemma BindableExactly(o: Owners, u: User, p: Phone)
    ensures CanBind(o, u, p) <==> Bindable(o, u, p)
  {
    NobodyExactly(o.approved, p);
  }

  /** A challenge begins exactly for an admitted request of a visitor who is not signed in, or of a
      guest with a verified address and a recent sign-in, who has no number and asks for one that
      nobody has and the guest may have. */
  predicate Begins(o: Owners, r: Request)
  {
    r.admitted &&
    match r.purpose
    case Login => r.actor.None?
    case Bind =>
      && r.actor.Some? && r.allowed && r.emailVerified && r.recent && r.actor.value !in o.verified
      && Nobody(o.verified, r.phone) && Bindable(o, r.actor.value, r.phone)
  }

  /** User u has the number now: verified, or waiting to prove it when nobody has it verified. */
  predicate Has(o: Owners, u: User, p: Phone)
  {
    (u in o.verified && o.verified[u].phone == p) || (Nobody(o.verified, p) && u in o.approved && o.approved[u].phone == p)
  }

  /** The challenge begun: for five minutes, without a code, for the signed-in guest, or for the
      allowed account that has the number. */
  predicate Begun(o: Owners, r: Request, now: Time, c: Challenge)
  {
    && c.phone == r.phone && c.purpose == r.purpose && c.session == r.session && c.status == Pending
    && c.code.None? && c.attempts == 0 && c.expires == now + 300
    && (r.purpose.Bind? ==> c.user == r.actor)
    && (r.purpose.Login? && c.user.Some? ==> r.allowed && Has(o, c.user.value, r.phone))
  }

  lemma OwnerExactly(table: map<User, Binding>, p: Phone)
    requires OneUserEach(table)
    ensures OwnerIn(table, p).Some? ==> OwnerIn(table, p).value in table && table[OwnerIn(table, p).value].phone == p
    ensures OwnerIn(table, p).None? <==> Nobody(table, p)
  {
    var us := Holders(table, p);
    if u :| u in us {
      forall v | v in us ensures v == u {}
      assert us == {u};
    }
    NobodyExactly(table, p);
  }

  lemma BeginExactly(w: World, r: Request, newId: Id, now: Time)
    requires OwnersFit(w.owners) && newId !in w.challenges
    ensures var w' := Begin(w, r, newId, now);
      && (newId in w'.challenges <==> Begins(w.owners, r))
      && (newId in w'.challenges ==> Begun(w.owners, r, now, w'.challenges[newId].row))
      && (newId in w'.challenges && r.purpose.Login? && r.allowed ==> (w'.challenges[newId].row.user.None? <==> forall u :: !Has(w.owners, u, r.phone)))
      && (newId !in w'.challenges ==> w' == w)
  {
    OwnerExactly(w.owners.verified, r.phone);
    OwnerExactly(w.owners.approved, r.phone);
    NobodyExactly(w.owners.verified, r.phone);
    NobodyExactly(w.owners.approved, r.phone);
    if r.actor.Some? { BindableExactly(w.owners, r.actor.value, r.phone); }
    var target := if r.allowed then Target(w.owners, r) else None;
    if target.Some? && r.purpose.Login? { assert Has(w.owners, target.value, r.phone); }
  }

  /** Beginning ends the session's earlier challenge if it is still open and touches no other. */
  lemma PreviousGivesWay(w: World, r: Request, newId: Id, now: Time, id: Id)
    requires newId !in w.challenges && id in w.challenges && newId in Begin(w, r, newId, now).challenges
    ensures var (t, w') := (w.challenges[id], Begin(w, r, newId, now));
      && w'.owners == w.owners && w'.challenges.Keys == w.challenges.Keys + {newId}
      && w'.challenges[id] ==
         if r.previous == Some(id) && t.row.session == r.session && t.row.status in {Pending, Sending, Sent}
         then t.(row := t.row.(status := Superseded, code := None)) else t
  {
  }

  /** A delivery task takes a challenge exactly while it is pending, unexpired and somebody's, of an
      account still allowed, whose captured number still stands or may still become the guest's. */
  predicate Takeable(w: World, id: Id, allowed: bool, now: Time)
  {
    id in w.challenges &&
    var c := w.challenges[id].row;
    && c.status == Pending && now < c.expires && c.user.Some? && allowed
    && (c.purpose.Login? ==> c.version.Some? && Stands(w.owners, c.user.value, Binding(c.phone, c.version.value)))
    && (c.purpose.Bind? ==> Bindable(w.owners, c.user.value, c.phone))
  }

  lemma PrepareExactly(w: World, id: Id, code: nat, allowed: bool, now: Time)
    ensures var w' := Prepare(w, id, code, allowed, now);
      if Takeable(w, id, allowed, now) then
        && w' == w.(challenges := w.challenges[id := w'.challenges[id]])
        && w'.challenges[id].row == w.challenges[id].row.(code := Some(code), status := Sending) && w'.challenges[id].task == Checking
      else w' == w
  {
    if id in w.challenges && w.challenges[id].row.user.Some? {
      BindableExactly(w.owners, w.challenges[id].row.user.value, w.challenges[id].row.phone);
    }
  }

  /** The message leaves exactly while the challenge is still being sent and unexpired. */
  lemma SendExactly(w: World, id: Id, now: Time)
    requires id in w.challenges && w.challenges[id].task == Checking
    ensures var (t, t') := (w.challenges[id], Recheck(w, id, now).challenges[id]);
      && (t'.messages == t.messages + 1 <==> t.row.status == Sending && now < t.row.expires)
      && t'.messages <= t.messages + 1 && t'.row == t.row && (t'.task == Reporting <==> t'.messages == t.messages + 1)
  {
  }

  /** A report opens a challenge still being sent, or fails it and forgets the code. */
  lemma ReportExactly(w: World, id: Id, ok: bool)
    requires id in w.challenges && w.challenges[id].task != Idle && (ok ==> w.challenges[id].task == Reporting)
    ensures var (t, t') := (w.challenges[id], Report(w, id, ok).challenges[id]);
      && t'.task == Idle
      && t'.row == if t.row.status != Sending then t.row else if ok then t.row.(status := Sent) else t.row.(status := Failed, code := None)
  {
  }

  /** A guess is accepted exactly at an open challenge with its very code, when the guest may now have
      the number, or the number captured at the beginning still stands. */
  predicate Acceptable(w: World, g: Guess, now: Time)
  {
    g.id in w.challenges &&
    var (c, o) := (w.challenges[g.id].row, w.owners);
    && c.status == Sent && now < c.expires && c.attempts < 5 && c.session == g.session && c.user.Some? && g.allowed
    && g.submitted.Some? && c.code == g.submitted
    && match c.purpose
       case Bind =>
         && g.actor == c.user && g.recent && Bindable(o, c.user.value, c.phone)
         && c.user.value !in o.verified && Nobody(o.verified, c.phone)
       case Login =>
         && g.actor.None? && c.version.Some? && Stands(o, c.user.value, Binding(c.phone, c.version.value))
         && (c.user.value in o.approved && o.approved[c.user.value] == Binding(c.phone, c.version.value) ==>
               c.user.value !in o.verified && Nobody(o.verified, c.phone))
  }

  lemma AcceptExactly(w: World, g: Guess, v: Version, now: Time)
    ensures Consume(w, g, v, now).1 <==> Acceptable(w, g, now)
  {
    if g.id in w.challenges && w.challenges[g.id].row.user.Some? {
      var c := w.challenges[g.id].row;
      BindableExactly(w.owners, c.user.value, c.phone);
      NobodyExactly(w.owners.verified, c.phone);
    }
  }

  /** The number the owner sees for a guest: the one to be proven, else the verified one, else the
      contact. */
  predicate Sees(o: Owners, u: User, shown: Contact)
  {
    if u in o.approved then shown == Number(o.approved[u].phone, 0)
    else if u in o.verified then shown == Number(o.verified[u].phone, 0)
    else shown == (if u in o.contacts then o.contacts[u] else Empty)
  }

  /** Nobody but u has the number in the table. */
  predicate NobodyElse(table: map<User, Binding>, u: User, p: Phone) { forall v | v in table && v != u :: table[v].phone != p }

  lemma NobodyElseExactly(table: map<User, Binding>, u: User, p: Phone)
    ensures NobodyElse(table, u, p) <==> Holders(table, p) <= {u}
  {
    if Holders(table, p) <= {u} {
      forall v | v in table && v != u ensures table[v].phone != p {
        assert v !in Holders(table, p);
      }
    }
  }

  /** An identity change goes through exactly when the page the owner confirmed is still current, the
      new number is nobody else's, a shown number is not just removed, and something changes. */
  predicate Confirmable(o: Owners, r: Change)
  {
    && r.permitted && Sees(o, r.user, r.expectedPhone)
    && r.expectedBinding == (if r.user in o.verified then Some(o.verified[r.user].version) else None)
    && r.expectedPending == (if r.user in o.approved then Some(o.approved[r.user].version) else None)
    && (r.phone.Some? ==> NobodyElse(o.verified, r.user, r.phone.value) && NobodyElse(o.approved, r.user, r.phone.value))
    && (r.phone.None? ==> r.expectedPhone == Empty)
    && (r.emailChanged || r.expectedPhone != (if r.phone.Some? then Number(r.phone.value, 0) else Empty))
  }

  lemma ApproveExactly(o: Owners, r: Change)
    ensures Approvable(o, r) <==> Confirmable(o, r)
  {
    if r.phone.Some? {
      NobodyElseExactly(o.verified, r.user, r.phone.value);
      NobodyElseExactly(o.approved, r.user, r.phone.value);
    }
  }

  /** A change of the e-mail alone moves no number. */
  lemma SameNumberStays(o: Owners, r: Change, v: Version, u: User)
    requires Approvable(o, r) && r.expectedPhone == (if r.phone.Some? then Number(r.phone.value, 0) else Empty)
    ensures var p := Approved(o, r, v);
      p.verified == o.verified && p.approved == o.approved && p.members == o.members && Untouched(o, p, u)
  {
  }

  /** What a change that goes through leaves behind: no open code of the guest, the wanted number as
      the one shown, no other guest touched. */
  lemma ApprovePromise(w: World, r: Change, v: Version)
    requires Invariant(w) && v !in w.owners.issued
    ensures Invariant(ApproveChange(w, r, v))
    ensures Approvable(w.owners, r) ==>
      var w' := ApproveChange(w, r, v);
      && (forall id | id in w'.challenges && w'.challenges[id].row.user == Some(r.user) :: !Active(w'.challenges[id].row.status))
      && (r.phone.None? || CurrentPhone(w'.owners, r.user) == Plain(r.phone.value))
      && (CurrentPhone(w.owners, r.user) != Wanted(r) ==> r.user !in w'.owners.verified && r.user in w'.owners.approved)
      && forall u | u != r.user :: Untouched(w.owners, w'.owners, u)
  {
    ApproveKeeps(w, r, v);
  }
}
