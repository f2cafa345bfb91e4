/** The referral tables as they are updated in place: reading the current graph,
    climbing it, joining, and the owner's repair of a missing link. */
module ReferralDesk {
  import opened Wrappers
  import opened TreeNumbers
  import opened Forest
  import opened Referrals

  datatype JoinError = Withdrawn | InviterNotEligible

  /** The inviters above `member` on any links, found with a growing seen set. */
  method ChainIds(member: Member, links: Links) returns (r: Result<seq<Member>, ChainError>)
    ensures r == Climb(links, member, {member})
    ensures Sound(links) && member in links ==> r == Ok(Chain(links, member))
  {
    if Sound(links) && member in links {
      ClimbFindsChain(links, member, {member});
    }
    var result: seq<Member>, seen, at := [], {member}, member;
    PrefixedNothing(Climb(links, at, seen));
    while true
      invariant Climb(links, member, {member}) == Prefixed(result, Climb(links, at, seen))
      decreases links.Keys - seen, at in links
    {
      if at !in links {
        return Err(IncompleteData);
      }
      var parent := links[at].inviter;
      if parent.None? {
        assert result + [] == result;
        return Ok(result);
      }
      if parent.value in seen {
        return Err(Cycle);
      }
      ShrinkingClimb(links, parent.value, seen);
      PrefixedNests(result, [parent.value], Climb(links, parent.value, seen + {parent.value}));
      seen := seen + {parent.value};
      result := result + [parent.value];
      at := parent.value;
    }
  }

  ghost function Prefixed(head: seq<Member>, rest: Result<seq<Member>, ChainError>): Result<seq<Member>, ChainError>
  {
    match rest
    case Ok(tail) => Ok(head + tail)
    case Err(e) => Err(e)
  }

  lemma PrefixedNothing(rest: Result<seq<Member>, ChainError>)
    ensures Prefixed([], rest) == rest
  {
    if rest.Ok? {
      assert [] + rest.value == rest.value;
    }
  }

  lemma PrefixedNests(a: seq<Member>, b: seq<Member>, rest: Result<seq<Member>, ChainError>)
    ensures Prefixed(a, Prefixed(b, rest)) == Prefixed(a + b, rest)
  {
    if rest.Ok? {
      Associative(a, b, rest.value);
    }
  }

  /** The first recorded row of one request for one member. */
  function Prior(revisions: seq<Revision>, operation: nat, m: Member): (r: Option<Revision>)
    ensures r.Some? ==> r.value in revisions && r.value.request.operation == operation && r.value.member == m
    ensures r.None? ==> forall row | row in revisions :: row.request.operation != operation || row.member != m
  {
    if revisions == [] then None
    else if revisions[0].request.operation == operation && revisions[0].member == m then Some(revisions[0])
    else Prior(revisions[1..], operation, m)
  }

  /** The request already has a row for one of these members. */
  ghost predicate AlreadyWritten(revisions: seq<Revision>, operation: nat, members: set<Member>)
  {
    exists k :: k in members && Prior(revisions, operation, k).Some?
  }

  predicate SameRequest(old_: Revision, i: Member, request: Request)
  {
    old_.link.inviter == Some(i) && old_.request.reason == request.reason && old_.request.operator == request.operator
  }

  /** Why a well-formed, not yet recorded request is turned down, if it is. */
  ghost function Refusal(t: Tables, m: Member, i: Member, operation: nat, active: set<Member>, eligible: set<Member>): Option<LinkError>
    requires Coherent(t)
  {
    CheckedIsSound(t.originals, t.revisions);
    var links := Graph(t.originals, t.revisions);
    if |t.originals| > MAX_TREE then Some(TreeTooLarge)
    else if PairError(links, m, i, active, eligible).Some? then PairError(links, m, i, active, eligible)
    else if AlreadyWritten(t.revisions, operation, Branch(links, m)) then Some(DuplicateRevision)
    else None
  }

  /** The row was written by this request for a member of m's branch. */
  ghost predicate WritesBranch(links: Links, m: Member, operation: nat, v: Revision)
    requires Sound(links)
  {
    v.member in links && (v.member == m || m in Chain(links, v.member)) && v.request.operation == operation
  }

  /** A request is taken up exactly for two active members of a tree of at most ten thousand, of
      whom the first has no inviter, the second is eligible and not below the first, and when the
      request has written none of the branch yet. */
  ghost predicate TakesUp(t: Tables, m: Member, i: Member, operation: nat, active: set<Member>, eligible: set<Member>)
    requires Sound(Graph(t.originals, t.revisions))
  {
    var links := Graph(t.originals, t.revisions);
    && |t.originals| <= 10_000 && m in links && i in links && m != i && m in active && i in active && i in eligible
    && links[m].inviter.None? && m !in Chain(links, i)
    && forall v | v in t.revisions :: !WritesBranch(links, m, operation, v)
  }

  lemma WrittenExactly(links: Links, m: Member, revisions: seq<Revision>, operation: nat)
    requires Sound(links) && m in links
    ensures AlreadyWritten(revisions, operation, Branch(links, m)) <==> exists v :: v in revisions && WritesBranch(links, m, operation, v)
  {
    if v :| v in revisions && WritesBranch(links, m, operation, v) {
      assert Prior(revisions, operation, v.member).Some? && v.member in Branch(links, m);
    }
    if k :| k in Branch(links, m) && Prior(revisions, operation, k).Some? {
      assert WritesBranch(links, m, operation, Prior(revisions, operation, k).value);
    }
  }

  lemma RefusalExactly(t: Tables, m: Member, i: Member, operation: nat, active: set<Member>, eligible: set<Member>)
    requires Coherent(t) && Sound(Graph(t.originals, t.revisions))
    ensures Refusal(t, m, i, operation, active, eligible).None? <==> TakesUp(t, m, i, operation, active, eligible)
  {
    var links := Graph(t.originals, t.revisions);
    AcceptedPairs(links, m, i, active, eligible);
    if m in links {
      WrittenExactly(links, m, t.revisions, operation);
    }
  }

  lemma ShallowestExists(links: Links, rest: set<Member>)
    requires rest != {} && rest <= links.Keys
    ensures exists k :: k in rest && forall j | j in rest :: links[k].depth <= links[j].depth
  {
    var x :| x in rest;
    if rest != {x} {
      ShallowestExists(links, rest - {x});
      var k :| k in rest - {x} && forall j | j in rest - {x} :: links[k].depth <= links[j].depth;
      if links[x].depth < links[k].depth {
        assert forall j | j in rest :: links[x].depth <= links[j].depth;
      } else {
        assert forall j | j in rest :: links[k].depth <= links[j].depth;
      }
    }
  }

  /** Whether m may be put under i, checked in the order the owner is told about it. */
  method ValidatePair(m: Member, i: Member, links: Links, active: set<Member>, eligible: set<Member>) returns (error: Option<LinkError>)
    ensures error == PairError(links, m, i, active, eligible)
  {
    if m == i { return Some(SelfInvite); }
    if m !in links || i !in links { return Some(NotJoined); }
    if m !in active || i !in active { return Some(NotActive); }
    if links[m].inviter.Some? {
      return Some(if links[m].inviter.value == i then AlreadyLinked else HasInviter);
    }
    var above := ChainIds(i, links);
    match above {
      case Err(why) => return Some(Broken(why));
      case Ok(chain) =>
        if m in chain { return Some(WouldCycle); }
        if i !in eligible { return Some(NotEligible); }
        return None;
    }
  }

  /** The members that move together: the set grows by whole generations of invitees
      until nobody is added, and is then exactly m's branch. */
  method Affected(links: Links, m: Member) returns (affected: set<Member>)
    requires Sound(links) && m in links
    ensures affected == Branch(links, m)
  {
    affected := {m};
    while true
      invariant m in affected && affected <= Branch(links, m)
      decreases links.Keys - affected
    {
      var added := (set k | k in links && links[k].inviter.Some? && links[k].inviter.value in affected) - affected;
      forall k | k in added
        ensures k in Branch(links, m)
      {
        UnderStep(links, k, m);
      }
      if added == {} {
        forall j | j in links && links[j].inviter.Some? && links[j].inviter.value in affected
          ensures j in affected
        {
          assert j in affected || j in added;
        }
        break;
      }
      var some :| some in added;
      assert some in links.Keys - affected && some !in links.Keys - (affected + added);
      affected := affected + added;
    }
    forall k | k in Branch(links, m)
      ensures k in affected
    {
      ClosedSetCoversBranch(links, m, affected, k);
    }
  }

  /** The branch in the order its rows are written: inviters before their invitees. */
  method ByDepth(links: Links, m: Member, affected: set<Member>) returns (order: seq<Member>)
    requires Sound(links) && m in links && affected == Branch(links, m)
    ensures BranchOrder(links, m, order)
  {
    order := [];
    var rest := affected;
    while rest != {}
      invariant rest <= affected && Distinct(order)
      invariant forall k :: k in order <==> k in affected && k !in rest
      invariant forall a, b | 0 <= a < b < |order| && order[a] in links && order[b] in links ::
        links[order[a]].depth <= links[order[b]].depth
      invariant forall k, j | k in order && j in rest :: links[k].depth <= links[j].depth
    {
      ShallowestExists(links, rest);
      var k :| k in rest && forall j | j in rest :: links[k].depth <= links[j].depth;
      order := order + [k];
      rest := rest - {k};
    }
  }

  class Desk {
    var originals: Links
    var revisions: seq<Revision>
    var customers: map<Member, User>
    var bookings: map<BookingId, Booking>

    ghost function State(): Tables
      reads this
    {
      Tables(originals, revisions, customers, bookings)
    }

    constructor ()
      ensures State() == Tables(map[], [], map[], map[])
    {
      originals, revisions, customers, bookings := map[], [], map[], map[];
    }

    /** The row in force of every member, refused above the tree limit. */
    method CurrentGraph() returns (r: Result<Links, LinkError>)
      ensures r == if |originals| > MAX_TREE then Err(TreeTooLarge) else Ok(Graph(originals, revisions))
    {
      if |originals| > MAX_TREE {
        return Err(TreeTooLarge);
      }
      var result: Links, rest := map[], originals.Keys;
      while rest != {}
        invariant rest <= originals.Keys
        invariant result.Keys == originals.Keys - rest
        invariant forall k | k in result :: result[k] == Latest(originals[k], revisions, k)
      {
        var k :| k in rest;
        var link := Newest(k);
        result := result[k := link];
        rest := rest - {k};
      }
      assert result == Graph(originals, revisions);
      return Ok(result);
    }

    method Newest(k: Member) returns (link: Link)
      requires k in originals
      ensures link == Latest(originals[k], revisions, k)
    {
      var j := |revisions|;
      assert revisions[..j] == revisions;
      while j > 0
        invariant 0 <= j <= |revisions|
        invariant Latest(originals[k], revisions[..j], k) == Latest(originals[k], revisions, k)
      {
        assert revisions[..j][..j - 1] == revisions[..j - 1];
        if revisions[j - 1].member == k {
          return revisions[j - 1].link;
        }
        j := j - 1;
      }
      return originals[k];
    }

    /** One above the largest branch used below the inviter in the original links. */
    method NextOriginal(inviter: Option<Member>) returns (n: nat)
      ensures Above(set k | k in originals :: (k, originals[k]), inviter, n)
    {
      n := 1;
      var rest := originals.Keys;
      ghost var met: set<(Member, Link)> := {};
      while rest != {}
        invariant rest <= originals.Keys
        invariant met == set k | k in originals && k !in rest :: (k, originals[k])
        invariant Above(met, inviter, n)
      {
        var k :| k in rest;
        ghost var n0 := n;
        if originals[k].inviter == inviter && originals[k].branch >= n {
          n := originals[k].branch + 1;
        }
        AboveGrows(met, (k, originals[k]), inviter, n0);
        met := met + {(k, originals[k])};
        rest := rest - {k};
      }
      assert met == set k | k in originals :: (k, originals[k]);
    }

    /** One above the largest branch ever used below the inviter. */
    method NextBranch(inviter: Option<Member>) returns (n: nat)
      ensures IsNextBranch(originals, revisions, inviter, n)
    {
      n := NextOriginal(inviter);
      ghost var met := set k | k in originals :: (k, originals[k]);
      var j := 0;
      while j < |revisions|
        invariant 0 <= j <= |revisions|
        invariant met == (set k | k in originals :: (k, originals[k])) + Written(revisions[..j])
        invariant Above(met, inviter, n)
      {
        var link := revisions[j].link;
        ghost var n0 := n;
        if link.inviter == inviter && link.branch >= n {
          n := link.branch + 1;
        }
        WrittenGrows(revisions[..j], [revisions[j]]);
        assert revisions[..j] + [revisions[j]] == revisions[..j + 1];
        AboveGrows(met, (revisions[j].member, link), inviter, n0);
        met := met + {(revisions[j].member, link)};
        j := j + 1;
      }
      assert revisions[..j] == revisions;
    }

    /** Bookings settled before the move keep the chain they were settled under, written down now;
        a booking not settled yet, one with a chain, and one of an owner who stays are left alone. */
    method FreezeBookings(links: Links, m: Member, affected: set<Member>)
      requires Sound(links) && m in links && affected == Branch(links, m)
      requires customers.Keys == links.Keys && OneToOne(customers)
      modifies this`bookings
      ensures bookings == Frozen(links, customers, m, old(bookings))
      ensures forall id | id in bookings :: BookingAfterMove(links, customers, m, old(bookings)[id], bookings[id])
    {
      ghost var before := bookings;
      FreezeLoop(links, m, affected);
      forall id | id in bookings ensures BookingAfterMove(links, customers, m, before[id], bookings[id]) {
        FrozenIsAfterMove(links, customers, m, before[id]);
      }
    }

    method FreezeLoop(links: Links, m: Member, affected: set<Member>)
      requires Sound(links) && m in links && affected == Branch(links, m)
      requires customers.Keys == links.Keys && OneToOne(customers)
      modifies this`bookings
      ensures bookings == Frozen(links, customers, m, old(bookings))
    {
      var rest := bookings.Keys;
      while rest != {}
        invariant rest <= bookings.Keys == old(bookings).Keys
        invariant forall id | id in rest :: bookings[id] == old(bookings)[id]
        invariant forall id | id in bookings && id !in rest ::
          bookings[id] == FrozenBooking(links, customers, m, old(bookings)[id])
      {
        var id :| id in rest;
        var booking := bookings[id];
        if booking.settled && booking.chain.None? && booking.customer.Some? {
          var holders := set k | k in affected && customers[k] == booking.customer.value;
          if holders != {} {
            var k :| k in holders;
            assert Affects(links, customers, m, booking, k);
            var chain := ChainIds(k, links);
            bookings := bookings[id := booking.(chain := Some(chain.value))];
          } else {
            assert forall k | Affects(links, customers, m, booking, k) :: k in holders;
          }
        }
        rest := rest - {id};
      }
    }

    /** A customer joins as the new member n, below an eligible inviter or as a new root.
        A customer who is a member already gets that membership back if it is active. */
    method Enroll(n: Member, customer: User, inviter: Option<Member>, active: set<Member>, eligible: set<Member>)
        returns (r: Result<Member, JoinError>)
      requires Coherent(State()) && NeverRecycled(originals, revisions)
      requires n !in originals && eligible <= originals.Keys
      modifies this
      ensures Coherent(State()) && NeverRecycled(originals, revisions)
      ensures old(customer in customers.Values) ==>
        && State() == old(State())
        && exists k :: k in customers && customers[k] == customer && r == if k in active then Ok(k) else Err(Withdrawn)
      ensures old(customer !in customers.Values) && inviter.Some? && inviter.value !in eligible ==>
        r == Err(InviterNotEligible) && State() == old(State())
      ensures old(customer !in customers.Values) && (inviter.Some? ==> inviter.value in eligible) ==>
        r == Ok(n) && exists b :: Joined(old(State()), n, customer, inviter, b, State())
    {
      if customer in customers.Values {
        var k :| k in customers && customers[k] == customer;
        return if k in active then Ok(k) else Err(Withdrawn);
      }
      if inviter.Some? && inviter.value !in eligible {
        return Err(InviterNotEligible);
      }
      AddMember(n, customer, inviter);
      return Ok(n);
    }

    /** The new member's row is written below its inviter, at a branch never used there. */
    method AddMember(n: Member, customer: User, inviter: Option<Member>)
      requires Coherent(State()) && NeverRecycled(originals, revisions)
      requires n !in originals && customer !in customers.Values && (inviter.Some? ==> inviter.value in originals)
      modifies this
      ensures Coherent(State()) && NeverRecycled(originals, revisions)
      ensures exists b :: Joined(old(State()), n, customer, inviter, b, State())
    {
      ghost var t := State();
      var branch := NextBranch(inviter);
      var link := NewRow(n, inviter, branch);
      originals := originals[n := link];
      customers := customers[n := customer];
      assert Joined(t, n, customer, inviter, branch, State());
      JoinKeepsChecks(t, n, customer, inviter, branch, State());
      JoinNeverRecycles(t, n, customer, inviter, branch, State());
    }

    method NewRow(n: Member, inviter: Option<Member>, branch: nat) returns (link: Link)
      requires inviter.Some? ==> inviter.value in originals
      ensures link == NewLink(Graph(originals, revisions), n, inviter, branch)
    {
      if inviter.None? { return Link(None, n, Top(branch), 0, branch); }
      var parent := Newest(inviter.value);
      return Link(inviter, parent.root, Below(parent.place, branch), parent.depth + 1, branch);
    }

    /** Puts m, so far without an inviter, under i. Nothing changes unless the request
        is accepted; a repeated request returns the row it wrote the first time. */
    method LinkMembers(owner: bool, operator: nat, m: Member, i: Member, reason: string, operation: Option<nat>,
                       active: set<Member>, eligible: set<Member>)
        returns (r: Result<Revision, LinkError>)
      requires Coherent(State())
      modifies this
      ensures Coherent(State())
      ensures old(NeverRecycled(originals, revisions)) ==> NeverRecycled(originals, revisions)
      ensures r.Err? ==> State() == old(State())
      ensures !owner ==> r == Err(NotOwner)
      ensures owner && !(5 <= |reason| <= 500) ==> r == Err(BadReason)
      ensures owner && 5 <= |reason| <= 500 && operation.None? ==> r == Err(BadOperation)
      ensures owner && 5 <= |reason| <= 500 && operation.Some? ==>
        var request := Request(operation.value, operator, reason);
        match old(Prior(revisions, operation.value, m))
        case Some(row) =>
          && State() == old(State())
          && r == if row.link.inviter == Some(i) && row.request.reason == reason && row.request.operator == operator
                  then Ok(row) else Err(OperationReused)
        case None =>
          match old(Refusal(State(), m, i, operation.value, active, eligible))
          case Some(error) => r == Err(error)
          case None =>
            r.Ok? && Done(old(State()), m, i, request, State(), r.value)
      ensures r.Ok? && operation.Some? && old(Prior(revisions, operation.value, m)).None? ==>
        Sound(old(Graph(originals, revisions))) && BookingsAfterMove(old(State()), m, State())
      ensures owner && 5 <= |reason| <= 500 && operation.Some? && old(Prior(revisions, operation.value, m)).None? ==>
        Sound(old(Graph(originals, revisions))) && (r.Ok? <==> TakesUp(old(State()), m, i, operation.value, active, eligible))
    {
      if !owner { return Err(NotOwner); }
      if !(5 <= |reason| <= 500) { return Err(BadReason); }
      if operation.None? { return Err(BadOperation); }
      var request := Request(operation.value, operator, reason);
      var before := Prior(revisions, operation.value, m);
      if before.Some? {
        if !SameRequest(before.value, i, request) { return Err(OperationReused); }
        return Ok(before.value);
      }
      CheckedIsSound(originals, revisions);
      RefusalExactly(State(), m, i, operation.value, active, eligible);
      var graph := CurrentGraph();
      if graph.Err? { return Err(graph.error); }
      var links := graph.value;
      AcceptedPairs(links, m, i, active, eligible);
      var error := ValidatePair(m, i, links, active, eligible);
      if error.Some? { return Err(error.value); }
      ghost var before_ := State();
      r := MoveBranch(links, m, i, request);
      if r.Ok? {
        DoneTouchesBookings(before_, m, i, request, State(), r.value);
      }
    }

    /** Writes the moved branch, or nothing when the request already wrote one of its members. */
    method MoveBranch(links: Links, m: Member, i: Member, request: Request) returns (r: Result<Revision, LinkError>)
      requires Coherent(State()) && links == Graph(originals, revisions) && Movable(links, m, i)
      modifies this
      ensures r.Err? <==> AlreadyWritten(old(revisions), request.operation, Branch(links, m))
      ensures r.Err? ==> r.error == DuplicateRevision && State() == old(State())
      ensures r.Ok? ==> Done(old(State()), m, i, request, State(), r.value)
    {
      var affected := Affected(links, m);
      var rows := PlanMove(links, m, i, affected, request);
      if rows.None? { return Err(DuplicateRevision); }
      var first := WriteMove(links, m, i, affected, request, rows.value);
      return Ok(first);
    }

    /** Writes planned rows: the repair is complete and its first row is the member's own. */
    method WriteMove(links: Links, m: Member, i: Member, affected: set<Member>, request: Request, rows: seq<Revision>) returns (first: Revision)
      requires Coherent(State()) && links == Graph(originals, revisions) && Movable(links, m, i)
      requires affected == Branch(links, m) && Planned(State(), links, m, i, request, rows)
      modifies this
      ensures Done(old(State()), m, i, request, State(), first)
    {
      ghost var before, after := State(), WrittenOut(State(), links, m, rows);
      PlannedIsDone(before, links, m, i, request, rows);
      Write(links, m, affected, rows);
      assert State() == after;
      return rows[0];
    }

    method Write(links: Links, m: Member, affected: set<Member>, rows: seq<Revision>)
      requires Sound(links) && m in links && affected == Branch(links, m)
      requires customers.Keys == links.Keys && OneToOne(customers)
      modifies this
      ensures State() == WrittenOut(old(State()), links, m, rows)
    {
      FreezeBookings(links, m, affected);
      revisions := revisions + rows;
    }

    /** The rows to write: a fresh branch under the inviter, the moved branch listed by depth. */
    method PlanMove(links: Links, m: Member, i: Member, affected: set<Member>, request: Request) returns (rows: Option<seq<Revision>>)
      requires Movable(links, m, i) && affected == Branch(links, m)
      ensures rows.None? <==> AlreadyWritten(revisions, request.operation, Branch(links, m))
      ensures rows.Some? ==> Planned(State(), links, m, i, request, rows.value)
    {
      var branch := NextBranch(Some(i));
      var order := ByDepth(links, m, affected);
      rows := BuildRows(links, m, i, branch, order, request);
    }

    /** One revision per member in order; refused when the request has one of them already. */
    method BuildRows(links: Links, m: Member, i: Member, branch: nat, order: seq<Member>, request: Request) returns (rows: Option<seq<Revision>>)
      requires Movable(links, m, i) && BranchOrder(links, m, order)
      ensures rows.None? <==> AlreadyWritten(revisions, request.operation, Branch(links, m))
      ensures rows.Some? ==> rows.value == Rows(MovedBranch(links, m, i, branch), order, request, m)
    {
      ghost var all := Rows(MovedBranch(links, m, i, branch), order, request, m);
      var built: seq<Revision>, j := [], 0;
      while j < |order|
        invariant 0 <= j <= |order| && built == all[..j]
        invariant forall k | k in order[..j] :: Prior(revisions, request.operation, k).None?
      {
        InBranch(links, m, order, j);
        if Prior(revisions, request.operation, order[j]).Some? { return None; }
        var row := MoveRow(links, m, i, branch, order[j]);
        OneMore(all, j);
        OneMore(order, j);
        built := built + [Revision(order[j], row, request, m)];
        j := j + 1;
      }
      assert order[..j] == order;
      return Some(built);
    }
  }

  lemma OneMore<T>(s: seq<T>, j: nat)
    requires j < |s|
    ensures s[..j + 1] == s[..j] + [s[j]]
  {
  }

  lemma InBranch(links: Links, m: Member, order: seq<Member>, j: nat)
    requires Sound(links) && BranchOrder(links, m, order) && j < |order|
    ensures order[j] in Branch(links, m)
  {
    assert order[j] in order;
  }

  /** The new row of one moved member. */
  method MoveRow(links: Links, m: Member, i: Member, branch: nat, key: Member) returns (row: Link)
    requires Movable(links, m, i) && key in Branch(links, m)
    ensures row == MovedBranch(links, m, i, branch)[key]
  {
    var child, parent, before := links[m], links[i], links[key];
    assert Consistent(links, m);
    row := Link(
      if key == m then Some(i) else before.inviter,
      parent.root,
      Rebase(before.place, child.place, Below(parent.place, branch)),
      before.depth + (parent.depth + 1 - child.depth),
      if key == m then branch else before.branch);
  }
}
