/** Whole histories of the referral tables: repairs, joins, settlements and
    unrelated booking changes in any order. */
module ReferralRuns {
  import opened Wrappers
  import opened TreeNumbers
  import opened Forest
  import opened Referrals
  import TreeCheck

  datatype Step =
    | Link(repair: Repair)
    | Join(newcomer: Member, customer: User, inviter: Option<Member>, branch: nat)
    | Settle(booking: BookingId, owner: Member)
    | Offer(booking: BookingId)
    | Elsewhere

  /** Settling uses the chain written down earlier, else the owner's present chain, and writes it down. */
  ghost predicate Settled(t: Tables, id: BookingId, k: Member, t': Tables)
    requires Coherent(t)
  {
    CheckedIsSound(t.originals, t.revisions);
    var links := Graph(t.originals, t.revisions);
    && id in t.bookings && Owns(t, k, t.bookings[id])
    && var booking := t.bookings[id];
       t' == t.(bookings := t.bookings[id := booking.(
         settled := true,
         chain := if booking.chain.Some? then booking.chain else Some(Chain(links, k)))])
  }

  /** The owner's past-stay offer pays the guest alone: it settles with an empty chain, whatever
      chain was written down. */
  ghost predicate Offered(t: Tables, id: BookingId, t': Tables)
  {
    id in t.bookings && t' == t.(bookings := t.bookings[id := t.bookings[id].(settled := true, chain := Some([]))])
  }

  ghost predicate Owns(t: Tables, k: Member, booking: Booking)
  {
    k in t.originals && k in t.customers && booking.customer == Some(t.customers[k])
  }

  ghost predicate Next(t: Tables, step: Step, t': Tables)
    requires Coherent(t)
  {
    match step
    case Link(repair) => Repaired(t, repair, t')
    case Join(n, customer, inviter, b) => Joined(t, n, customer, inviter, b, t')
    case Settle(id, k) => Settled(t, id, k, t')
    case Offer(id) => Offered(t, id, t')
    case Elsewhere =>
      && t' == t.(bookings := t'.bookings)
      && forall id | id in t.bookings && t.bookings[id].settled :: id in t'.bookings && t'.bookings[id] == t.bookings[id]
  }

  ghost predicate Invariant(t: Tables)
  {
    Coherent(t) && NeverRecycled(t.originals, t.revisions)
  }

  ghost predicate Run(states: seq<Tables>, steps: seq<Step>)
  {
    && |states| == |steps| + 1
    && Invariant(states[0])
    && forall j | 0 <= j < |steps| :: Goes(states[j], steps[j], states[j + 1])
  }

  ghost predicate Goes(t: Tables, step: Step, t': Tables) { Coherent(t) ==> Next(t, step, t') }

  /** The chain a booking's rewards follow: the one written down, else its owner's present chain. */
  ghost predicate EffectiveChain(t: Tables, booking: Booking, chain: seq<Member>)
    requires Coherent(t)
  {
    CheckedIsSound(t.originals, t.revisions);
    var links := Graph(t.originals, t.revisions);
    match booking.chain
    case Some(stored) => chain == stored
    case None => exists k :: Owns(t, k, booking) && chain == Chain(links, k)
  }

  /** Booking `id` is settled and its rewards follow `chain`. */
  ghost predicate SettledWith(t: Tables, id: BookingId, chain: seq<Member>)
  {
    Coherent(t) && id in t.bookings && t.bookings[id].settled && EffectiveChain(t, t.bookings[id], chain)
  }

  /** The effective chain of a booking depends on the membership tables only. */
  lemma OnlyMembershipMatters(t: Tables, t': Tables, booking: Booking, chain: seq<Member>)
    requires Coherent(t) && t' == t.(bookings := t'.bookings) && EffectiveChain(t, booking, chain)
    ensures Coherent(t') && EffectiveChain(t', booking, chain)
  {
  }

  /** The empty programme satisfies the invariant. */
  lemma EmptyIsValid()
    ensures Invariant(Tables(map[], [], map[], map[]))
  {
  }

  lemma StepKeepsInvariant(t: Tables, step: Step, t': Tables)
    requires Invariant(t) && Next(t, step, t')
    ensures Invariant(t')
  {
    match step
    case Link(repair) =>
      RepairKeepsChecks(t, repair, t');
      RepairNeverRecycles(t, repair, t');
    case Join(n, customer, inviter, b) =>
      JoinKeepsChecks(t, n, customer, inviter, b, t');
      JoinNeverRecycles(t, n, customer, inviter, b, t');
    case Settle(_, _) =>
    case Offer(_) =>
    case Elsewhere =>
  }

  /** Rows once recorded stay recorded. */
  lemma StepKeepsRows(t: Tables, step: Step, t': Tables)
    requires Invariant(t) && Next(t, step, t')
    ensures Recorded(t.originals, t.revisions) <= Recorded(t'.originals, t'.revisions)
  {
    match step
    case Link(r) =>
      CheckedIsSound(t.originals, t.revisions);
      WrittenGrows(t.revisions, t'.revisions[|t.revisions|..]);
      assert t'.revisions == t.revisions + t'.revisions[|t.revisions|..];
    case Join(n, customer, inviter, b) =>
      GraphWithNewcomer(t.originals, t.revisions, n, t'.originals[n]);
    case Settle(_, _) =>
    case Offer(_) =>
    case Elsewhere =>
  }

  lemma {:induction false} ChainIgnoresNewcomer(links: Links, n: Member, row: Forest.Link, k: Member)
    requires Sound(links) && Sound(links[n := row]) && n !in links && k in links
    ensures Chain(links[n := row], k) == Chain(links, k)
    decreases links[k].depth
  {
    ChainUnfolds(links, k);
    ChainUnfolds(links[n := row], k);
    if links[k].inviter.Some? {
      ChainIgnoresNewcomer(links, n, row, links[k].inviter.value);
    }
  }

  /** A repair writes down the chain of a moved owner's settled booking and leaves the others. */
  lemma FrozenForOwner(links: Links, customers: map<Member, User>, m: Member, booking: Booking, k: Member)
    requires Sound(links) && customers.Keys == links.Keys && OneToOne(customers)
    requires k in links && booking.customer == Some(customers[k]) && booking.settled && booking.chain.None?
    ensures FrozenBooking(links, customers, m, booking) == if Under(links, k, m) then booking.(chain := Some(Chain(links, k))) else booking
  {
    if Under(links, k, m) {
      assert Affects(links, customers, m, booking, k);
    }
    assert forall j | Affects(links, customers, m, booking, j) :: j == k;
  }

  lemma OutsiderKeepsChain(t: Tables, r: Repair, t': Tables, k: Member)
    requires Coherent(t) && Coherent(t') && Repaired(t, r, t') && Sound(Graph(t.originals, t.revisions)) && Sound(Graph(t'.originals, t'.revisions))
    requires k in t.originals && !Under(Graph(t.originals, t.revisions), k, r.m)
    ensures Chain(Graph(t'.originals, t'.revisions), k) == Chain(Graph(t.originals, t.revisions), k)
  {
    var links := Graph(t.originals, t.revisions);
    GraphAfter(t.originals, t.revisions, MovedBranch(links, r.m, r.i, r.b), r.order, r.request, r.m);
    ChainLaw(links, r.m, r.i, r.b, k);
  }

  lemma BookingAfterRepair(t: Tables, r: Repair, t': Tables, id: BookingId)
    requires Coherent(t) && Sound(Graph(t.originals, t.revisions)) && Repaired(t, r, t') && id in t.bookings
    ensures id in t'.bookings && t'.bookings[id] == FrozenBooking(Graph(t.originals, t.revisions), t.customers, r.m, t.bookings[id])
    ensures t'.customers == t.customers && t'.originals == t.originals
    ensures t.bookings[id].chain.Some? ==> t'.bookings[id] == t.bookings[id]
  {
  }

  /** The booking of owner k follows k's chain after the repair as before. */
  lemma RepairFreezesOwned(t: Tables, r: Repair, t': Tables, id: BookingId, k: Member)
    requires Coherent(t) && Coherent(t') && Sound(Graph(t.originals, t.revisions)) && Sound(Graph(t'.originals, t'.revisions))
    requires Repaired(t, r, t') && id in t.bookings && t.bookings[id].settled && t.bookings[id].chain.None? && Owns(t, k, t.bookings[id])
    ensures SettledWith(t', id, Chain(Graph(t.originals, t.revisions), k))
  {
    var links := Graph(t.originals, t.revisions);
    BookingAfterRepair(t, r, t', id);
    FrozenForOwner(links, t.customers, r.m, t.bookings[id], k);
    if !Under(links, k, r.m) {
      OutsiderKeepsChain(t, r, t', k);
      assert Owns(t', k, t'.bookings[id]);
    }
  }

  /** A repair changes no settled booking's effective chain: moved members' bookings get
      the old chain written down, everybody else's chain is the same as before. */
  lemma RepairFreezes(t: Tables, r: Repair, t': Tables, id: BookingId, chain: seq<Member>)
    requires Coherent(t) && Coherent(t') && Repaired(t, r, t')
    requires SettledWith(t, id, chain)
    ensures SettledWith(t', id, chain)
  {
    CheckedIsSound(t.originals, t.revisions);
    CheckedIsSound(t'.originals, t'.revisions);
    if t.bookings[id].chain.None? {
      var k :| Owns(t, k, t.bookings[id]) && chain == Chain(Graph(t.originals, t.revisions), k);
      RepairFreezesOwned(t, r, t', id, k);
    } else {
      BookingAfterRepair(t, r, t', id);
    }
  }

  lemma JoinFreezes(t: Tables, step: Step, t': Tables, id: BookingId, chain: seq<Member>)
    requires Invariant(t) && Invariant(t') && step.Join? && Next(t, step, t')
    requires id in t.bookings && EffectiveChain(t, t.bookings[id], chain)
    ensures EffectiveChain(t', t'.bookings[id], chain)
  {
    CheckedIsSound(t.originals, t.revisions);
    CheckedIsSound(t'.originals, t'.revisions);
    var links, n := Graph(t.originals, t.revisions), step.newcomer;
    var booking := t.bookings[id];
    GraphWithNewcomer(t.originals, t.revisions, n, t'.originals[n]);
    if booking.chain.None? {
      var k :| Owns(t, k, booking) && chain == Chain(links, k);
      ChainIgnoresNewcomer(links, n, t'.originals[n], k);
      assert Owns(t', k, booking);
    }
  }

  lemma SettleFreezes(t: Tables, step: Step, t': Tables, id: BookingId, chain: seq<Member>)
    requires Invariant(t) && step.Settle? && Next(t, step, t')
    requires SettledWith(t, id, chain)
    ensures SettledWith(t', id, chain)
  {
  }

  /** A settled booking has one effective chain. */
  lemma OneChain(t: Tables, id: BookingId, a: seq<Member>, b: seq<Member>)
    requires SettledWith(t, id, a) && SettledWith(t, id, b)
    ensures a == b
  {
  }

  /** An offer leaves the empty chain, which any other step and any further offer keeps. */
  lemma OfferClears(t: Tables, t': Tables, id: BookingId)
    requires Coherent(t) && Offered(t, id, t')
    ensures SettledWith(t', id, [])
  {
  }

  lemma OtherOfferFreezes(t: Tables, t': Tables, other: BookingId, id: BookingId, chain: seq<Member>)
    requires Invariant(t) && Offered(t, other, t') && other != id && SettledWith(t, id, chain)
    ensures SettledWith(t', id, chain)
  {
    OnlyMembershipMatters(t, t', t.bookings[id], chain);
  }

  lemma StepFreezes(t: Tables, step: Step, t': Tables, id: BookingId, chain: seq<Member>)
    requires Invariant(t) && Invariant(t') && Next(t, step, t')
    requires SettledWith(t, id, chain) && step != Offer(id)
    ensures SettledWith(t', id, chain)
  {
    match step
    case Link(repair) => RepairFreezes(t, repair, t', id, chain);
    case Join(_, _, _, _) => JoinFreezes(t, step, t', id, chain);
    case Settle(_, _) => SettleFreezes(t, step, t', id, chain);
    case Offer(other) => OtherOfferFreezes(t, t', other, id, chain);
    case Elsewhere => OnlyMembershipMatters(t, t', t.bookings[id], chain);
  }

  /** Every state of every run is a proper forest in which no place was ever recycled. */
  lemma {:induction false} RunKeepsInvariant(states: seq<Tables>, steps: seq<Step>, j: nat)
    requires Run(states, steps) && j < |states|
    ensures Invariant(states[j])
  {
    if j > 0 {
      RunKeepsInvariant(states, steps, j - 1);
      StepKeepsInvariant(states[j - 1], steps[j - 1], states[j]);
    }
  }

  /** Every state of every run, printed into a snapshot, passes the checker's demands on the tree. */
  lemma EveryStateIsAccepted(states: seq<Tables>, steps: seq<Step>, j: nat)
    requires Run(states, steps) && j < |states|
    ensures TreeCheck.TextChecked(TreeCheck.PrintLinks(states[j].originals), TreeCheck.PrintRevisions(states[j].revisions))
  {
    RunKeepsInvariant(states, steps, j);
    TreeCheck.PrintedChecks(states[j].originals, states[j].revisions);
  }

  /** A number recorded anywhere in a run names one member for the whole run. */
  lemma {:induction false} NumbersNameOneMemberForever(states: seq<Tables>, steps: seq<Step>, i: nat, j: nat,
                                                       x: (Member, Forest.Link), y: (Member, Forest.Link))
    requires Run(states, steps) && i <= j < |states|
    requires x in Recorded(states[i].originals, states[i].revisions)
    requires y in Recorded(states[j].originals, states[j].revisions)
    requires Text(x.1.place) == Text(y.1.place)
    ensures x.0 == y.0
    decreases j - i
  {
    RunKeepsInvariant(states, steps, i);
    if i == j {
      TextInjective(x.1.place, y.1.place);
      assert Agree(x, y);
    } else {
      StepKeepsRows(states[i], steps[i], states[i + 1]);
      NumbersNameOneMemberForever(states, steps, i + 1, j, x, y);
    }
  }

  /** The chain after one step: the empty one after an offer for the booking, else as before. */
  lemma StepOfRunFreezes(states: seq<Tables>, steps: seq<Step>, i: nat, id: BookingId, chain: seq<Member>)
    requires Run(states, steps) && i < |steps| && SettledWith(states[i], id, chain)
    ensures SettledWith(states[i + 1], id, if steps[i] == Offer(id) then [] else chain)
  {
    RunKeepsInvariant(states, steps, i);
    RunKeepsInvariant(states, steps, i + 1);
    if steps[i] == Offer(id) {
      OfferClears(states[i], states[i + 1], id);
    } else {
      StepFreezes(states[i], steps[i], states[i + 1], id, chain);
    }
  }

  /** The chain a booking settled with `chain` at state i follows at state j. */
  ghost function ChainAt(steps: seq<Step>, i: nat, j: nat, id: BookingId, chain: seq<Member>): seq<Member>
    requires i <= j <= |steps|
  {
    if exists m :: i <= m < j && steps[m] == Offer(id) then [] else chain
  }

  lemma {:induction false} SettledChainFollowsOffers(states: seq<Tables>, steps: seq<Step>, i: nat, j: nat, id: BookingId, chain: seq<Member>)
    requires Run(states, steps) && i <= j < |states|
    requires SettledWith(states[i], id, chain)
    ensures SettledWith(states[j], id, ChainAt(steps, i, j, id, chain))
    decreases j - i
  {
    if i < j {
      SettledChainFollowsOffers(states, steps, i, j - 1, id, chain);
      StepOfRunFreezes(states, steps, j - 1, id, ChainAt(steps, i, j - 1, id, chain));
      OneStepMore(steps, i, j, id, chain);
    }
  }

  lemma OneStepMore(steps: seq<Step>, i: nat, j: nat, id: BookingId, chain: seq<Member>)
    requires i < j <= |steps|
    ensures ChainAt(steps, i, j, id, chain) == if steps[j - 1] == Offer(id) then [] else ChainAt(steps, i, j - 1, id, chain)
  {
    if m :| i <= m < j && steps[m] == Offer(id) {
      assert m == j - 1 || m < j - 1;
    }
  }

  /** Over any run the effective chain of a settled booking stays what it was, whatever is
      linked, joined or settled, exactly until the owner's past-stay offer settles it. */
  lemma SettledChainsAreFrozen(states: seq<Tables>, steps: seq<Step>, i: nat, j: nat, id: BookingId, chain: seq<Member>)
    requires Run(states, steps) && i <= j < |states|
    requires SettledWith(states[i], id, chain)
    ensures SettledWith(states[j], id, chain) <==> chain == [] || forall m | i <= m < j :: steps[m] != Offer(id)
  {
    SettledChainFollowsOffers(states, steps, i, j, id, chain);
    if SettledWith(states[j], id, chain) {
      OneChain(states[j], id, chain, ChainAt(steps, i, j, id, chain));
    }
  }

  // ----- An offer overwrites a chain -----

  lemma FirstJoins(t: Tables, t': Tables)
    requires t.originals == map[] && t.revisions == [] && t.customers == map[]
    requires t' == t.(originals := map[1 := Forest.Link(None, 1, Top(1), 0, 1)], customers := map[1 := 10])
    ensures Joined(t, 1, 10, None, 1, t')
  {
    assert Recorded(t.originals, t.revisions) == {};
    assert Above({}, None, 1);
  }

  lemma SecondJoins(t: Tables, t': Tables, row: Forest.Link)
    requires t.originals.Keys == {1} && t.originals[1] == Forest.Link(None, 1, Top(1), 0, 1) && t.revisions == [] && t.customers == map[1 := 10]
    requires row == Forest.Link(Some(1), 1, Below(Top(1), 1), 1, 1)
    requires t' == t.(originals := t.originals[2 := row], customers := t.customers[2 := 20])
    ensures Joined(t, 2, 20, Some(1), 1, t')
  {
    assert Graph(t.originals, t.revisions) == t.originals;
    assert Above(Recorded(t.originals, t.revisions), Some(1), 1);
  }

  /** In the present tables the second member's chain is the first member. */
  lemma ChainOfSecond(links: Links)
    requires Sound(links) && 1 in links && links[1].inviter.None? && 2 in links && links[2].inviter == Some(1)
    ensures Chain(links, 2) == [1]
  {
    ChainUnfolds(links, 1);
    ChainUnfolds(links, 2);
  }

  lemma SettlesWithInviter(t: Tables, t': Tables)
    requires Coherent(t) && t.revisions == [] && 1 in t.originals && t.originals[1].inviter.None?
    requires 2 in t.originals && t.originals[2].inviter == Some(1) && t.customers[2] == 20
    requires t.bookings == map[5 := Booking(Some(20), false, None)]
    requires t' == t.(bookings := map[5 := Booking(Some(20), true, Some([1]))])
    ensures Settled(t, 5, 2, t') && SettledWith(t', 5, [1])
  {
    CheckedIsSound(t.originals, t.revisions);
    assert Graph(t.originals, t.revisions) == t.originals;
    ChainOfSecond(t.originals);
    assert t'.bookings == t.bookings[5 := Booking(Some(20), true, Some([1]))];
  }

  lemma OfferTakesAway(t: Tables, t': Tables)
    requires Coherent(t) && SettledWith(t, 5, [1]) && Offered(t, 5, t')
    ensures SettledWith(t', 5, []) && !SettledWith(t', 5, [1])
  {
    OfferClears(t, t', 5);
    if SettledWith(t', 5, [1]) {
      OneChain(t', 5, [], [1]);
    }
  }

  /** Member 1 and then, invited by member 1, member 2. */
  ghost predicate TwoMembers(t: Tables)
  {
    && Invariant(t) && t.revisions == [] && t.bookings == map[]
    && 1 in t.originals && t.originals[1].inviter.None? && 2 in t.originals && t.originals[2].inviter == Some(1)
    && t.customers[2] == 20
  }

  lemma TwoJoin() returns (t: Tables)
    ensures TwoMembers(t)
  {
    var t0 := Tables(map[], [], map[], map[]);
    EmptyIsValid();
    var first, second := Forest.Link(None, 1, Top(1), 0, 1), Forest.Link(Some(1), 1, Below(Top(1), 1), 1, 1);
    var t1 := t0.(originals := map[1 := first], customers := map[1 := 10]);
    FirstJoins(t0, t1);
    StepKeepsInvariant(t0, Join(1, 10, None, 1), t1);
    t := t1.(originals := t1.originals[2 := second], customers := t1.customers[2 := 20]);
    SecondJoins(t1, t, second);
    StepKeepsInvariant(t1, Join(2, 20, Some(1), 1), t);
  }

  lemma SecondStays(t2: Tables) returns (t3: Tables, t4: Tables, t5: Tables)
    requires TwoMembers(t2)
    ensures Invariant(t3) && t3.originals == t2.originals && 5 in t3.bookings && t3.bookings[5] == Booking(Some(20), false, None)
    ensures Next(t3, Settle(5, 2), t4) && Coherent(t4) && Next(t4, Offer(5), t5)
    ensures SettledWith(t4, 5, [1]) && !SettledWith(t5, 5, [1]) && SettledWith(t5, 5, [])
  {
    t3 := t2.(bookings := map[5 := Booking(Some(20), false, None)]);
    t4 := t3.(bookings := map[5 := Booking(Some(20), true, Some([1]))]);
    SettlesWithInviter(t3, t4);
    t5 := t4.(bookings := t4.bookings[5 := t4.bookings[5].(settled := true, chain := Some([]))]);
    OfferTakesAway(t4, t5);
  }

  lemma TwoSteps(a: Tables, b: Tables, c: Tables, s: Step, t: Step)
    requires Invariant(a) && Goes(a, s, b) && Goes(b, t, c)
    ensures Run([a, b, c], [s, t])
  {
  }

  /** Member 2, invited by member 1, settles a stay with the chain of member 1; the past-stay
      offer for the same stay then leaves no beneficiary. */
  lemma OfferOverwritesChain() returns (states: seq<Tables>, steps: seq<Step>)
    ensures Run(states, steps) && steps == [Settle(5, 2), Offer(5)]
    ensures 2 in states[0].originals && states[0].originals[2].inviter == Some(1)
    ensures SettledWith(states[1], 5, [1]) && !SettledWith(states[2], 5, [1]) && SettledWith(states[2], 5, [])
  {
    var t2 := TwoJoin();
    var t3, t4, t5 := SecondStays(t2);
    states, steps := [t3, t4, t5], [Settle(5, 2), Offer(5)];
    TwoSteps(t3, t4, t5, Settle(5, 2), Offer(5));
  }

  // ----- Bookings not settled yet -----

  /** The booking is neither settled nor carries a chain. */
  predicate Upcoming(t: Tables, id: BookingId)
  {
    id in t.bookings && !t.bookings[id].settled && t.bookings[id].chain.None?
  }

  /** The step neither settles the booking nor changes it from elsewhere. */
  predicate LeavesBooking(t: Tables, step: Step, t': Tables, id: BookingId)
  {
    match step
    case Settle(b, _) => b != id
    case Offer(b) => b != id
    case Elsewhere => id in t.bookings && id in t'.bookings && t'.bookings[id] == t.bookings[id]
    case _ => true
  }

  lemma StepKeepsUpcoming(t: Tables, step: Step, t': Tables, id: BookingId)
    requires Coherent(t) && Next(t, step, t') && Upcoming(t, id) && LeavesBooking(t, step, t', id)
    ensures id in t'.bookings && t'.bookings[id] == t.bookings[id]
  {
    if step.Link? {
      CheckedIsSound(t.originals, t.revisions);
      RepairTouchesBookings(t, step.repair, t');
    }
  }

  lemma AdjacentKeepsUpcoming(states: seq<Tables>, steps: seq<Step>, i: nat, id: BookingId)
    requires Run(states, steps) && i < |steps| && Upcoming(states[i], id)
    requires LeavesBooking(states[i], steps[i], states[i + 1], id)
    ensures id in states[i + 1].bookings && states[i + 1].bookings[id] == states[i].bookings[id]
  {
    RunKeepsInvariant(states, steps, i);
    assert Goes(states[i], steps[i], states[i + 1]);
    StepKeepsUpcoming(states[i], steps[i], states[i + 1], id);
  }

  lemma {:induction false} StaysUpcoming(states: seq<Tables>, steps: seq<Step>, i: nat, j: nat, id: BookingId)
    requires Run(states, steps) && i <= j < |states| && Upcoming(states[i], id)
    requires forall n | i <= n < j :: LeavesBooking(states[n], steps[n], states[n + 1], id)
    ensures id in states[j].bookings && states[j].bookings[id] == states[i].bookings[id]
    decreases j - i
  {
    if i < j {
      AdjacentKeepsUpcoming(states, steps, i, id);
      StaysUpcoming(states, steps, i + 1, j, id);
    }
  }

  /** A booking whose first settlement comes at step j, whatever was linked or joined before,
      follows the chain its owner has at that moment. */
  lemma FirstSettlementFollowsTree(states: seq<Tables>, steps: seq<Step>, i: nat, j: nat, id: BookingId, k: Member)
    requires Run(states, steps) && i <= j < |steps| && Upcoming(states[i], id) && steps[j] == Settle(id, k)
    requires forall n | i <= n < j :: LeavesBooking(states[n], steps[n], states[n + 1], id)
    ensures Sound(Graph(states[j].originals, states[j].revisions)) && k in states[j].originals
    ensures id in states[j + 1].bookings && states[j + 1].bookings[id].settled
    ensures states[j + 1].bookings[id].chain == Some(Chain(Graph(states[j].originals, states[j].revisions), k))
  {
    StaysUpcoming(states, steps, i, j, id);
    RunKeepsInvariant(states, steps, j);
    CheckedIsSound(states[j].originals, states[j].revisions);
    assert Goes(states[j], steps[j], states[j + 1]);
  }

  /** So a stay first settled right after its owner, or somebody above the owner, was put under a
      new inviter follows the old chain, then that inviter, then the inviter's chain. */
  lemma LinkedStayPaysInviter(states: seq<Tables>, steps: seq<Step>, j: nat, id: BookingId, k: Member)
    requires Run(states, steps) && j + 1 < |steps| && Upcoming(states[j], id)
    requires steps[j].Link? && steps[j + 1] == Settle(id, k)
    requires Sound(Graph(states[j].originals, states[j].revisions)) && k in states[j].originals
    requires Under(Graph(states[j].originals, states[j].revisions), k, steps[j].repair.m)
    ensures var (links, i) := (Graph(states[j].originals, states[j].revisions), steps[j].repair.i);
      && i in links && id in states[j + 2].bookings && states[j + 2].bookings[id].settled
      && states[j + 2].bookings[id].chain == Some(Chain(links, k) + ([i] + Chain(links, i)))
  {
    var t, r, t' := states[j], steps[j].repair, states[j + 1];
    RunKeepsInvariant(states, steps, j);
    assert Goes(t, steps[j], t');
    AdjacentKeepsUpcoming(states, steps, j, id);
    FirstSettlementFollowsTree(states, steps, j + 1, j + 1, id, k);
    MovedChain(t, r, t', k);
  }

  lemma MovedChain(t: Tables, r: Repair, t': Tables, k: Member)
    requires Coherent(t) && Repaired(t, r, t') && Sound(Graph(t.originals, t.revisions)) && Sound(Graph(t'.originals, t'.revisions))
    requires k in t.originals && Under(Graph(t.originals, t.revisions), k, r.m)
    ensures var links := Graph(t.originals, t.revisions);
      r.i in links && Chain(Graph(t'.originals, t'.revisions), k) == Chain(links, k) + ([r.i] + Chain(links, r.i))
  {
    var links := Graph(t.originals, t.revisions);
    GraphAfter(t.originals, t.revisions, MovedBranch(links, r.m, r.i, r.b), r.order, r.request, r.m);
    ChainLaw(links, r.m, r.i, r.b, k);
  }

  // ----- Branches are numbered without a gap -----

  /** Below every inviter, and at the top, the branches ever recorded are 1, 2, 3 and so on. */
  ghost predicate NoGaps(rows: set<(Member, Link)>)
  {
    && (forall row | row in rows :: row.1.branch > 0)
    && forall row, c: nat | row in rows && 0 < c <= row.1.branch :: HasBranch(rows, row.1.inviter, c)
  }

  ghost predicate HasBranch(rows: set<(Member, Link)>, inviter: Option<Member>, c: nat)
  {
    exists row :: row in rows && row.1.inviter == inviter && row.1.branch == c
  }

  /** Rows that repeat a recorded branch, or take the next one, leave no gap. */
  lemma NextLeavesNoGap(rows: set<(Member, Link)>, more: set<(Member, Link)>, inviter: Option<Member>, b: nat)
    requires NoGaps(rows) && Above(rows, inviter, b)
    requires forall row | row in more :: (row.1.inviter == inviter && row.1.branch == b) || HasBranch(rows, row.1.inviter, row.1.branch)
    ensures NoGaps(rows + more)
  {
    forall row, c: nat | row in rows + more && 0 < c <= row.1.branch ensures HasBranch(rows + more, row.1.inviter, c) {
      if row in rows {
        assert HasBranch(rows, row.1.inviter, c);
      } else if HasBranch(rows, row.1.inviter, row.1.branch) {
        var other :| other in rows && other.1.inviter == row.1.inviter && other.1.branch == row.1.branch;
        assert HasBranch(rows, other.1.inviter, c);
      } else if c < b {
        var last :| last in rows && last.1.inviter == inviter && last.1.branch + 1 == b;
        assert HasBranch(rows, inviter, c);
      }
    }
  }

  lemma RepairLeavesNoGap(t: Tables, r: Repair, t': Tables)
    requires Invariant(t) && Repaired(t, r, t') && NoGaps(Recorded(t.originals, t.revisions))
    ensures NoGaps(Recorded(t'.originals, t'.revisions))
  {
    CheckedIsSound(t.originals, t.revisions);
    var links, rows := Graph(t.originals, t.revisions), Recorded(t.originals, t.revisions);
    var moved := MovedBranch(links, r.m, r.i, r.b);
    WrittenGrows(t.revisions, Rows(moved, r.order, r.request, r.m));
    RowsWritten(moved, r.order, r.request, r.m);
    forall row | row in moved.Items
      ensures (row.1.inviter == Some(r.i) && row.1.branch == r.b) || HasBranch(rows, row.1.inviter, row.1.branch)
    {
      LatestIsRecorded(t.originals, t.revisions, row.0);
      MovedRow(links, r.m, r.i, r.b, row.0);
    }
    NextLeavesNoGap(rows, moved.Items, Some(r.i), r.b);
    assert Recorded(t'.originals, t'.revisions) == rows + moved.Items;
  }

  lemma StepLeavesNoGap(t: Tables, step: Step, t': Tables)
    requires Invariant(t) && Next(t, step, t') && NoGaps(Recorded(t.originals, t.revisions))
    ensures NoGaps(Recorded(t'.originals, t'.revisions))
  {
    match step
    case Link(repair) => RepairLeavesNoGap(t, repair, t');
    case Join(n, customer, inviter, b) =>
      GraphWithNewcomer(t.originals, t.revisions, n, t'.originals[n]);
      NextLeavesNoGap(Recorded(t.originals, t.revisions), {(n, t'.originals[n])}, inviter, b);
    case Settle(_, _) =>
    case Offer(_) =>
    case Elsewhere =>
  }

  /** Over any run, a member invited or moved under an inviter gets the first number free there: no
      branch order is skipped, and none is given out below 1. */
  lemma {:induction false} BranchesHaveNoGaps(states: seq<Tables>, steps: seq<Step>, j: nat)
    requires Run(states, steps) && j < |states| && NoGaps(Recorded(states[0].originals, states[0].revisions))
    ensures NoGaps(Recorded(states[j].originals, states[j].revisions))
  {
    if j > 0 {
      BranchesHaveNoGaps(states, steps, j - 1);
      RunKeepsInvariant(states, steps, j - 1);
      StepLeavesNoGap(states[j - 1], steps[j - 1], states[j]);
    }
  }
}
