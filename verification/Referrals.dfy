/** Membership links with their append-only revisions, and the owner's repair of a
    missing link: the member's whole branch moves under the inviter. */
module Referrals {
  import opened Wrappers
  import opened TreeNumbers
  import opened Forest

  type User = nat
  type BookingId = nat

  const MAX_TREE := 10000

  /** The owner's confirmed request: its reference, who asked, and why. */
  datatype Request = Request(operation: nat, operator: nat, reason: string)

  /** One repair: m is put under i at branch b, its branch written out in the listed order. */
  datatype Repair = Repair(m: Member, i: Member, b: nat, order: seq<Member>, request: Request)

  datatype Revision = Revision(member: Member, link: Link, request: Request, linked: Member)

  /** The loyalty state of a booking, as far as reward chains are concerned. */
  datatype Booking = Booking(customer: Option<User>, settled: bool, chain: Option<seq<Member>>)

  datatype Tables = Tables(
    originals: Links,
    revisions: seq<Revision>,
    customers: map<Member, User>,
    bookings: map<BookingId, Booking>)

  datatype LinkError =
    | NotOwner | BadReason | BadOperation | OperationReused | TreeTooLarge
    | SelfInvite | NotJoined | NotActive | AlreadyLinked | HasInviter
    | Broken(why: ChainError) | WouldCycle | NotEligible | DuplicateRevision

  // ----- Reading the tables -----

  /** The member's row in force: its newest revision, else its original link. */
  ghost function Latest(original: Link, revisions: seq<Revision>, m: Member): Link
  {
    if revisions == [] then original
    else
      var last := revisions[|revisions| - 1];
      if last.member == m then last.link else Latest(original, revisions[..|revisions| - 1], m)
  }

  ghost function Graph(originals: Links, revisions: seq<Revision>): Links
  {
    map m | m in originals :: Latest(originals[m], revisions, m)
  }

  ghost function Written(revisions: seq<Revision>): set<(Member, Link)>
  {
    set j | 0 <= j < |revisions| :: (revisions[j].member, revisions[j].link)
  }

  /** Every row ever recorded, original or revision, with the member it belongs to. */
  ghost function Recorded(originals: Links, revisions: seq<Revision>): set<(Member, Link)>
  {
    (set m | m in originals :: (m, originals[m])) + Written(revisions)
  }

  lemma {:induction false} LatestIsRecorded(originals: Links, revisions: seq<Revision>, m: Member)
    requires m in originals
    ensures (m, Latest(originals[m], revisions, m)) in Recorded(originals, revisions)
  {
    if revisions != [] {
      var before, last := revisions[..|revisions| - 1], revisions[|revisions| - 1];
      LatestIsRecorded(originals, before, m);
      WrittenGrows(before, [last]);
      assert before + [last] == revisions;
      assert (last.member, last.link) in Written(revisions);
    }
  }

  lemma WrittenGrows(revisions: seq<Revision>, more: seq<Revision>)
    ensures Written(revisions + more) == Written(revisions) + Written(more)
  {
    var all := revisions + more;
    forall j | 0 <= j < |more|
      ensures (more[j].member, more[j].link) in Written(all)
    {
      assert all[|revisions| + j] == more[j];
    }
    forall j | 0 <= j < |revisions|
      ensures (revisions[j].member, revisions[j].link) in Written(all)
    {
      assert all[j] == revisions[j];
    }
    assert forall j | 0 <= j < |all| ::
      (j < |revisions| ==> all[j] == revisions[j]) && (j >= |revisions| ==> all[j] == more[j - |revisions|]);
  }

  // ----- What the snapshot checker demands of these tables -----

  ghost predicate References(originals: Links, revisions: seq<Revision>)
  {
    && (forall j | 0 <= j < |revisions| :: revisions[j].member in originals)
    && (forall x, r {:trigger Refers(originals, x, r)} | (x, r) in Recorded(originals, revisions) :: Refers(originals, x, r))
  }

  ghost predicate Refers(originals: Links, x: Member, r: Link)
  {
    r.root in originals && (r.inviter.Some? ==> r.inviter.value in originals)
  }

  /** Every current row that has an inviter agrees with the inviter's current row. */
  ghost predicate Aligned(links: Links)
  {
    forall k {:trigger Consistent(links, k)} | k in links && links[k].inviter.Some? :: Consistent(links, k)
  }

  ghost predicate Checked(originals: Links, revisions: seq<Revision>)
  {
    && References(originals, revisions)
    && DistinctPlaces(originals)
    && ParentClosed(Recorded(originals, revisions))
    && DistinctPlaces(Graph(originals, revisions))
    && Aligned(Graph(originals, revisions))
  }

  lemma CheckedIsSound(originals: Links, revisions: seq<Revision>)
    requires Checked(originals, revisions)
    ensures Sound(Graph(originals, revisions))
  {
    var links := Graph(originals, revisions);
    forall k | k in links
      ensures Consistent(links, k)
    {
      LatestIsRecorded(originals, revisions, k);
      assert Supported(Recorded(originals, revisions), k, links[k]);
    }
  }

  /** A number that was ever recorded belongs to one member only. */
  ghost predicate NeverRecycled(originals: Links, revisions: seq<Revision>)
  {
    OneHolder(Recorded(originals, revisions))
  }

  ghost predicate OneHolder(rows: set<(Member, Link)>)
  {
    forall a, b {:trigger Agree(a, b)} | a in rows && b in rows :: Agree(a, b)
  }

  ghost predicate Agree(a: (Member, Link), b: (Member, Link)) { a.1.place == b.1.place ==> a.0 == b.0 }

  lemma OneHolderGrows(rows: set<(Member, Link)>, more: set<(Member, Link)>)
    requires OneHolder(rows) && OneHolder(more)
    requires forall a, b | a in rows && b in more :: a.1.place != b.1.place
    ensures OneHolder(rows + more)
  {
  }

  // ----- The next free branch -----

  /** n is one more than the largest branch order among `rows` below `inviter`, or 1. */
  ghost predicate Above(rows: set<(Member, Link)>, inviter: Option<Member>, n: nat)
  {
    && n > 0
    && (forall row | row in rows && row.1.inviter == inviter :: row.1.branch < n)
    && (n > 1 ==> exists row :: row in rows && row.1.inviter == inviter && row.1.branch + 1 == n)
  }

  lemma AboveGrows(rows: set<(Member, Link)>, row: (Member, Link), inviter: Option<Member>, n: nat)
    requires Above(rows, inviter, n)
    ensures Above(rows + {row}, inviter,
                  if row.1.inviter == inviter && row.1.branch >= n then row.1.branch + 1 else n)
  {
  }

  /** The branch comes after every branch ever recorded below the inviter, in originals and revisions alike. */
  ghost predicate IsNextBranch(originals: Links, revisions: seq<Revision>, inviter: Option<Member>, n: nat)
  {
    Above(Recorded(originals, revisions), inviter, n)
  }

  // ----- The effect of one repair -----

  /** One revision per listed member, carrying its moved row. */
  ghost function Rows(moved: Links, order: seq<Member>, request: Request, m: Member): (rows: seq<Revision>)
    requires forall k | k in order :: k in moved
    ensures |rows| == |order|
  {
    seq(|order|, j requires 0 <= j < |order| => Revision(order[j], moved[order[j]], request, m))
  }

  ghost predicate Distinct<T>(s: seq<T>) { forall a, b | 0 <= a < b < |s| :: s[a] != s[b] }

  /** `order` lists m's branch once, inviters before their invitees. */
  ghost predicate BranchOrder(links: Links, m: Member, order: seq<Member>)
    requires Sound(links)
  {
    && (forall k :: k in order <==> k in Branch(links, m))
    && Distinct(order)
    && (forall a, b | 0 <= a < b < |order| && order[a] in links && order[b] in links ::
          links[order[a]].depth <= links[order[b]].depth)
  }

  /** Already settled bookings of moved members get the chain they were settled under written down. */
  ghost function Frozen(links: Links, customers: map<Member, User>, m: Member, bookings: map<BookingId, Booking>): map<BookingId, Booking>
    requires Sound(links) && customers.Keys == links.Keys
  {
    map id | id in bookings :: FrozenBooking(links, customers, m, bookings[id])
  }

  ghost predicate Affects(links: Links, customers: map<Member, User>, m: Member, booking: Booking, k: Member)
    requires Sound(links) && customers.Keys == links.Keys
  {
    k in links && Under(links, k, m) && booking.customer == Some(customers[k])
  }

  ghost function FrozenBooking(links: Links, customers: map<Member, User>, m: Member, booking: Booking): Booking
    requires Sound(links) && customers.Keys == links.Keys
  {
    if booking.settled && booking.chain.None? && exists k :: Affects(links, customers, m, booking, k) then
      var k :| Affects(links, customers, m, booking, k);
      booking.(chain := Some(Chain(links, k)))
    else booking
  }

  /** Customers and memberships are one to one. */
  ghost predicate OneToOne(customers: map<Member, User>)
  {
    forall j, k | j in customers && k in customers && customers[j] == customers[k] :: j == k
  }

  ghost predicate Coherent(t: Tables)
  {
    && Checked(t.originals, t.revisions)
    && t.customers.Keys == t.originals.Keys
    && OneToOne(t.customers)
  }

  /** The tables after a successful repair that listed the branch in `order` and used branch b. */
  ghost predicate Repaired(t: Tables, r: Repair, t': Tables)
    requires Coherent(t)
  {
    CheckedIsSound(t.originals, t.revisions);
    var links := Graph(t.originals, t.revisions);
    && Movable(links, r.m, r.i)
    && IsNextBranch(t.originals, t.revisions, Some(r.i), r.b)
    && BranchOrder(links, r.m, r.order)
    && t'.originals == t.originals
    && t'.customers == t.customers
    && t'.revisions == t.revisions + Rows(MovedBranch(links, r.m, r.i, r.b), r.order, r.request, r.m)
    && t'.bookings == Frozen(links, t.customers, r.m, t.bookings)
  }

  // ----- What a repair does to bookings -----

  /** Member k of m's branch owns the booking. */
  ghost predicate OwnedInBranch(links: Links, customers: map<Member, User>, m: Member, booking: Booking, k: Member)
    requires Sound(links)
  {
    k in links && k in customers && booking.customer == Some(customers[k]) && (k == m || m in Chain(links, k))
  }

  /** A booking already settled without a written chain whose owner moves gets the owner's chain
      before the move; any other booking, an unsettled one above all, stays as it is. */
  ghost predicate BookingAfterMove(links: Links, customers: map<Member, User>, m: Member, before: Booking, after: Booking)
    requires Sound(links)
  {
    if before.settled && before.chain.None? && exists k :: OwnedInBranch(links, customers, m, before, k) then
      exists k :: OwnedInBranch(links, customers, m, before, k) && after == before.(chain := Some(Chain(links, k)))
    else after == before
  }

  ghost predicate BookingsAfterMove(t: Tables, m: Member, t': Tables)
    requires Sound(Graph(t.originals, t.revisions))
  {
    && t'.bookings.Keys == t.bookings.Keys
    && forall id | id in t.bookings :: BookingAfterMove(Graph(t.originals, t.revisions), t.customers, m, t.bookings[id], t'.bookings[id])
  }

  lemma FrozenIsAfterMove(links: Links, customers: map<Member, User>, m: Member, booking: Booking)
    requires Sound(links) && customers.Keys == links.Keys
    ensures BookingAfterMove(links, customers, m, booking, FrozenBooking(links, customers, m, booking))
  {
    forall k ensures OwnedInBranch(links, customers, m, booking, k) <==> Affects(links, customers, m, booking, k) {}
  }

  lemma RepairTouchesBookings(t: Tables, r: Repair, t': Tables)
    requires Coherent(t) && Sound(Graph(t.originals, t.revisions)) && Repaired(t, r, t')
    ensures BookingsAfterMove(t, r.m, t')
  {
    var links := Graph(t.originals, t.revisions);
    forall id | id in t.bookings ensures BookingAfterMove(links, t.customers, r.m, t.bookings[id], t'.bookings[id]) {
      FrozenIsAfterMove(links, t.customers, r.m, t.bookings[id]);
    }
  }

  // ----- What a repair keeps -----

  /** Reading on from an earlier answer. */
  lemma {:induction false} LatestAfter(original: Link, revisions: seq<Revision>, more: seq<Revision>, k: Member)
    ensures Latest(original, revisions + more, k) == Latest(Latest(original, revisions, k), more, k)
    decreases |more|
  {
    if more == [] {
      assert revisions + more == revisions;
    } else {
      assert (revisions + more)[..|revisions + more| - 1] == revisions + more[..|more| - 1];
      LatestAfter(original, revisions, more[..|more| - 1], k);
    }
  }

  lemma {:induction false} LatestIsLast(original: Link, rows: seq<Revision>, k: Member, j: nat)
    requires j < |rows| && rows[j].member == k && forall a | j < a < |rows| :: rows[a].member != k
    ensures Latest(original, rows, k) == rows[j].link
  {
    if j < |rows| - 1 {
      LatestIsLast(original, rows[..|rows| - 1], k, j);
    }
  }

  lemma {:induction false} LatestWithoutRows(original: Link, rows: seq<Revision>, k: Member)
    requires forall a | 0 <= a < |rows| :: rows[a].member != k
    ensures Latest(original, rows, k) == original
  {
    if rows != [] {
      LatestWithoutRows(original, rows[..|rows| - 1], k);
    }
  }

  /** Appending one row per member of `moved` overrides exactly those members' current rows. */
  lemma GraphAfter(originals: Links, revisions: seq<Revision>, moved: Links, order: seq<Member>, request: Request, m: Member)
    requires Distinct(order) && (forall k :: k in order <==> k in moved) && moved.Keys <= originals.Keys
    ensures Graph(originals, revisions + Rows(moved, order, request, m)) == Graph(originals, revisions) + moved
  {
    var rows := Rows(moved, order, request, m);
    forall k | k in originals
      ensures Latest(originals[k], revisions + rows, k)
           == if k in moved then moved[k] else Latest(originals[k], revisions, k)
    {
      LatestAfter(originals[k], revisions, rows, k);
      if k in moved {
        var j :| 0 <= j < |order| && order[j] == k;
        LatestIsLast(Latest(originals[k], revisions, k), rows, k, j);
      } else {
        forall a | 0 <= a < |rows| ensures rows[a].member != k { assert order[a] in order; }
        LatestWithoutRows(Latest(originals[k], revisions, k), rows, k);
      }
    }
  }

  lemma RowsWritten(moved: Links, order: seq<Member>, request: Request, m: Member)
    requires forall k :: k in order <==> k in moved
    ensures Written(Rows(moved, order, request, m)) == moved.Items
  {
    var rows := Rows(moved, order, request, m);
    forall k | k in moved
      ensures (k, moved[k]) in Written(rows)
    {
      var j :| 0 <= j < |order| && order[j] == k;
      assert (rows[j].member, rows[j].link) == (k, moved[k]);
    }
    forall j | 0 <= j < |rows|
      ensures (rows[j].member, rows[j].link) in moved.Items
    {
      assert order[j] in order;
    }
    assert forall row | row in moved.Items :: row.0 in moved && row == (row.0, moved[row.0]);
  }

  /** Appending rows keeps the checker's demands when the new rows are supported,
      stay among the members, and leave an aligned graph with distinct numbers. */
  lemma AppendKeepsChecks(originals: Links, revisions: seq<Revision>, moved: Links, order: seq<Member>, request: Request, m: Member)
    requires Checked(originals, revisions)
    requires Distinct(order) && (forall k :: k in order <==> k in moved) && moved.Keys <= originals.Keys
    requires Sound(Graph(originals, revisions) + moved) && DistinctPlaces(Graph(originals, revisions) + moved)
    requires forall k | k in moved ::
      && Supported(Recorded(originals, revisions) + moved.Items, k, moved[k])
      && (moved[k].inviter.Some? ==> moved[k].inviter.value in originals) && moved[k].root in originals
    ensures Checked(originals, revisions + Rows(moved, order, request, m))
  {
    var more := Rows(moved, order, request, m);
    var rows, rows' := Recorded(originals, revisions), Recorded(originals, revisions + more);
    GraphAfter(originals, revisions, moved, order, request, m);
    RowsWritten(moved, order, request, m);
    WrittenGrows(revisions, more);
    assert rows' == rows + moved.Items;
    SupportSurvives(rows, rows');
    AppendedRefers(originals, revisions, moved, order, request, m);
  }

  /** The appended rows refer to joined members like all the others. */
  lemma AppendedRefers(originals: Links, revisions: seq<Revision>, moved: Links, order: seq<Member>, request: Request, m: Member)
    requires References(originals, revisions)
    requires (forall k :: k in order <==> k in moved) && moved.Keys <= originals.Keys
    requires forall k | k in moved :: (moved[k].inviter.Some? ==> moved[k].inviter.value in originals) && moved[k].root in originals
    ensures References(originals, revisions + Rows(moved, order, request, m))
  {
    var more := Rows(moved, order, request, m);
    RowsWritten(moved, order, request, m);
    WrittenGrows(revisions, more);
    assert forall j | 0 <= j < |more| :: more[j].member == order[j] && order[j] in order;
    forall x, r | (x, r) in Recorded(originals, revisions + more)
      ensures Refers(originals, x, r)
    {
      assert (x, r) in moved.Items ==> r == moved[x];
      assert (x, r) !in moved.Items ==> (x, r) in Recorded(originals, revisions);
    }
  }

  /** Relinking keeps everything the snapshot checker demands. */
  lemma RepairKeepsChecks(t: Tables, r: Repair, t': Tables)
    requires Coherent(t) && Repaired(t, r, t')
    ensures Coherent(t')
  {
    CheckedIsSound(t.originals, t.revisions);
    var links := Graph(t.originals, t.revisions);
    var rows := Recorded(t.originals, t.revisions);
    forall k | k in links
      ensures (k, links[k]) in rows
    {
      LatestIsRecorded(t.originals, t.revisions, k);
    }
    assert forall k | k in links && links[k].inviter == Some(r.i) :: (k, links[k]).1.branch != r.b;
    RelinkedDistinct(links, r.m, r.i, r.b);
    RelinkedSound(links, r.m, r.i, r.b);
    var moved := MovedBranch(links, r.m, r.i, r.b);
    forall k | k in moved
      ensures Supported(rows + moved.Items, k, moved[k])
      ensures moved[k].inviter.Some? && moved[k].inviter.value in links && moved[k].root == links[r.i].root
    {
      MovedRowSupported(links, r.m, r.i, r.b, rows + moved.Items, k);
    }
    assert Refers(t.originals, r.i, links[r.i]);
    AppendKeepsChecks(t.originals, t.revisions, moved, r.order, r.request, r.m);
  }

  /** Relinking never hands out a number that was recorded before. */
  lemma RepairNeverRecycles(t: Tables, r: Repair, t': Tables)
    requires Coherent(t) && NeverRecycled(t.originals, t.revisions)
    requires Repaired(t, r, t')
    ensures NeverRecycled(t'.originals, t'.revisions)
  {
    CheckedIsSound(t.originals, t.revisions);
    var links := Graph(t.originals, t.revisions);
    var rows := Recorded(t.originals, t.revisions);
    var moved := MovedBranch(links, r.m, r.i, r.b);
    RowsWritten(moved, r.order, r.request, r.m);
    WrittenGrows(t.revisions, Rows(moved, r.order, r.request, r.m));
    LatestIsRecorded(t.originals, t.revisions, r.i);
    forall row | row in rows && row.1.place == links[r.i].place
      ensures row.0 == r.i
    {
      assert Agree(row, (r.i, links[r.i]));
    }
    forall k | k in moved
      ensures forall row | row in rows :: row.1.place != moved[k].place
    {
      MovedPlaceIsFresh(links, r.m, r.i, r.b, rows, k);
    }
    forall x, y | x in moved.Items && y in moved.Items
      ensures Agree(x, y)
    {
      if x.1.place == y.1.place {
        MovedPlacesDiffer(links, r.m, r.i, r.b, x.0, y.0);
      }
    }
    OneHolderGrows(rows, moved.Items);
  }

  /** The whole outcome of an accepted request: m sits under i at the next free branch with
      its branch listed by depth, the checks still hold, no place was recycled, and the
      answer is m's new row, written first. */
  ghost predicate Done(t: Tables, m: Member, i: Member, request: Request, t': Tables, answer: Revision)
  {
    && Coherent(t)
    && (exists b, order :: Repaired(t, Repair(m, i, b, order, request), t'))
    && Coherent(t')
    && (NeverRecycled(t.originals, t.revisions) ==> NeverRecycled(t'.originals, t'.revisions))
    && |t'.revisions| > |t.revisions| && answer == t'.revisions[|t.revisions|] && answer.member == m
  }

  lemma DoneTouchesBookings(t: Tables, m: Member, i: Member, request: Request, t': Tables, answer: Revision)
    requires Done(t, m, i, request, t', answer) && Sound(Graph(t.originals, t.revisions))
    ensures BookingsAfterMove(t, m, t')
  {
    var b, order :| Repaired(t, Repair(m, i, b, order, request), t');
    RepairTouchesBookings(t, Repair(m, i, b, order, request), t');
  }

  lemma FirstIsMember(links: Links, m: Member, order: seq<Member>)
    requires Sound(links) && m in links && BranchOrder(links, m, order)
    ensures order != [] && order[0] == m
  {
    assert m in Branch(links, m);
    var a :| 0 <= a < |order| && order[a] == m;
    assert order[0] in Branch(links, m);
  }

  lemma RepairIsDone(t: Tables, links: Links, r: Repair, rows: seq<Revision>)
    requires Coherent(t) && links == Graph(t.originals, t.revisions) && Movable(links, r.m, r.i)
    requires IsNextBranch(t.originals, t.revisions, Some(r.i), r.b) && BranchOrder(links, r.m, r.order)
    requires rows == Rows(MovedBranch(links, r.m, r.i, r.b), r.order, r.request, r.m)
    ensures rows != []
    ensures Done(t, r.m, r.i, r.request,
      t.(revisions := t.revisions + rows, bookings := Frozen(links, t.customers, r.m, t.bookings)), rows[0])
  {
    var t' := t.(revisions := t.revisions + rows, bookings := Frozen(links, t.customers, r.m, t.bookings));
    assert r == Repair(r.m, r.i, r.b, r.order, r.request);
    assert Repaired(t, r, t');
    RepairKeepsChecks(t, r, t');
    if NeverRecycled(t.originals, t.revisions) {
      RepairNeverRecycles(t, r, t');
    }
    FirstIsMember(links, r.m, r.order);
  }

  /** The rows of some repair of m under i at the next free branch, listed by depth. */
  ghost predicate Planned(t: Tables, links: Links, m: Member, i: Member, request: Request, rows: seq<Revision>)
    requires Movable(links, m, i)
  {
    exists b, order ::
      && IsNextBranch(t.originals, t.revisions, Some(i), b) && BranchOrder(links, m, order)
      && rows == Rows(MovedBranch(links, m, i, b), order, request, m)
  }

  /** The tables after writing these rows and freezing the settled bookings of the branch. */
  ghost function WrittenOut(t: Tables, links: Links, m: Member, rows: seq<Revision>): Tables
    requires Sound(links) && m in links && t.customers.Keys == links.Keys
  {
    t.(revisions := t.revisions + rows, bookings := Frozen(links, t.customers, m, t.bookings))
  }

  lemma PlannedIsDone(t: Tables, links: Links, m: Member, i: Member, request: Request, rows: seq<Revision>)
    requires Coherent(t) && links == Graph(t.originals, t.revisions) && Movable(links, m, i)
    requires Planned(t, links, m, i, request, rows)
    ensures rows != [] && Done(t, m, i, request, WrittenOut(t, links, m, rows), rows[0])
  {
    var b, order :|
      && IsNextBranch(t.originals, t.revisions, Some(i), b) && BranchOrder(links, m, order)
      && rows == Rows(MovedBranch(links, m, i, b), order, request, m);
    RepairIsDone(t, links, Repair(m, i, b, order, request), rows);
  }

  // ----- Which pairs may be linked -----

  ghost function PairError(links: Links, m: Member, i: Member, active: set<Member>, eligible: set<Member>): Option<LinkError>
  {
    if m == i then Some(SelfInvite)
    else if m !in links || i !in links then Some(NotJoined)
    else if m !in active || i !in active then Some(NotActive)
    else if links[m].inviter == Some(i) then Some(AlreadyLinked)
    else if links[m].inviter.Some? then Some(HasInviter)
    else match Climb(links, i, {i})
      case Err(why) => Some(Broken(why))
      case Ok(chain) =>
        if m in chain then Some(WouldCycle) else if i !in eligible then Some(NotEligible) else None
  }

  /** On a sound forest a pair is accepted exactly when the move is well defined and
      both members are in good standing; broken data is never reported. */
  lemma AcceptedPairs(links: Links, m: Member, i: Member, active: set<Member>, eligible: set<Member>)
    requires Sound(links)
    ensures PairError(links, m, i, active, eligible).None?
       <==> Movable(links, m, i) && m in active && i in active && i in eligible
    ensures PairError(links, m, i, active, eligible).Some? ==> !PairError(links, m, i, active, eligible).value.Broken?
  {
    if i in links {
      ClimbFindsChain(links, i, {i});
    }
  }

  // ----- Joining -----

  /** A new member n joins for `customer`, below `inviter` or as a new root, at branch b. */
  ghost predicate Joined(t: Tables, n: Member, customer: User, inviter: Option<Member>, b: nat, t': Tables)
  {
    var links := Graph(t.originals, t.revisions);
    && n !in t.originals && customer !in t.customers.Values
    && (inviter.Some? ==> inviter.value in links)
    && IsNextBranch(t.originals, t.revisions, inviter, b)
    && t' == t.(
         originals := t.originals[n := NewLink(links, n, inviter, b)],
         customers := t.customers[n := customer])
  }

  ghost function NewLink(links: Links, n: Member, inviter: Option<Member>, b: nat): Link
    requires inviter.Some? ==> inviter.value in links
  {
    match inviter
    case None => Link(None, n, Top(b), 0, b)
    case Some(i) => Link(inviter, links[i].root, Below(links[i].place, b), links[i].depth + 1, b)
  }

  lemma {:induction false} NoRowYet(originals: Links, original: Link, revisions: seq<Revision>, n: Member)
    requires forall j | 0 <= j < |revisions| :: revisions[j].member in originals
    requires n !in originals
    ensures Latest(original, revisions, n) == original
  {
    if revisions != [] {
      NoRowYet(originals, original, revisions[..|revisions| - 1], n);
    }
  }

  lemma GraphWithNewcomer(originals: Links, revisions: seq<Revision>, n: Member, row: Link)
    requires forall j | 0 <= j < |revisions| :: revisions[j].member in originals
    requires n !in originals
    ensures Graph(originals[n := row], revisions) == Graph(originals, revisions)[n := row]
    ensures Recorded(originals[n := row], revisions) == Recorded(originals, revisions) + {(n, row)}
  {
    NoRowYet(originals, row, revisions, n);
    var all := Recorded(originals[n := row], revisions);
    assert originals[n := row][n] == row;
    assert (n, row) in all;
    forall m | m in originals
      ensures (m, originals[m]) in all
    {
      assert originals[n := row][m] == originals[m];
    }
  }

  /** A joining member's number was never recorded before. */
  lemma JoinPlaceIsFresh(t: Tables, n: Member, customer: User, inviter: Option<Member>, b: nat, t': Tables)
    requires Coherent(t) && NeverRecycled(t.originals, t.revisions)
    requires Joined(t, n, customer, inviter, b, t')
    ensures forall row | row in Recorded(t.originals, t.revisions) :: row.1.place != NewLink(Graph(t.originals, t.revisions), n, inviter, b).place
  {
    var rows := Recorded(t.originals, t.revisions);
    forall row | row in rows
      ensures row.1.place != NewLink(Graph(t.originals, t.revisions), n, inviter, b).place
    {
      assert Supported(rows, row.0, row.1);
      match inviter
      case Some(i) =>
        LatestIsRecorded(t.originals, t.revisions, i);
        forall other | other in rows && other.1.place == Graph(t.originals, t.revisions)[i].place
          ensures other.0 == i
        {
          assert Agree(other, (i, Graph(t.originals, t.revisions)[i]));
        }
      case None =>
    }
  }

  /** Adding a supported row with a fresh number for a new member keeps the checks. */
  lemma NewcomerKeepsChecks(originals: Links, revisions: seq<Revision>, n: Member, row: Link)
    requires Checked(originals, revisions) && n !in originals
    requires forall x | x in Recorded(originals, revisions) :: x.1.place != row.place
    requires Supported(Recorded(originals, revisions) + {(n, row)}, n, row)
    requires Refers(originals[n := row], n, row)
    requires Consistent(Graph(originals, revisions)[n := row], n)
    ensures Checked(originals[n := row], revisions)
  {
    var links, rows := Graph(originals, revisions), Recorded(originals, revisions);
    CheckedIsSound(originals, revisions);
    GraphWithNewcomer(originals, revisions, n, row);
    forall k | k in originals
      ensures originals[k].place != row.place && links[k].place != row.place
    {
      LatestIsRecorded(originals, revisions, k);
      assert (k, originals[k]) in rows && (k, links[k]) in rows;
    }
    NewcomerIsSound(links, n, row);
    NewcomerIsDistinct(links, n, row);
    NewcomerIsDistinct(originals, n, row);
    SupportSurvives(rows, rows + {(n, row)});
    NewcomerRefers(originals, revisions, n, row);
  }

  lemma NewcomerRefers(originals: Links, revisions: seq<Revision>, n: Member, row: Link)
    requires References(originals, revisions) && n !in originals
    requires Refers(originals[n := row], n, row)
    ensures References(originals[n := row], revisions)
  {
    GraphWithNewcomer(originals, revisions, n, row);
    forall x, r | (x, r) in Recorded(originals[n := row], revisions)
      ensures Refers(originals[n := row], x, r)
    {
      assert (x, r) in Recorded(originals, revisions) ==> Refers(originals, x, r);
    }
  }

  lemma NewcomerRecyclesNothing(originals: Links, revisions: seq<Revision>, n: Member, row: Link)
    requires References(originals, revisions) && NeverRecycled(originals, revisions) && n !in originals
    requires forall x | x in Recorded(originals, revisions) :: x.1.place != row.place
    ensures NeverRecycled(originals[n := row], revisions)
  {
  }

  lemma NewRowSupported(links: Links, rows: set<(Member, Link)>, n: Member, inviter: Option<Member>, b: nat)
    requires n !in links && (inviter.Some? ==> inviter.value in links && (inviter.value, links[inviter.value]) in rows)
    ensures Supported(rows + {(n, NewLink(links, n, inviter, b))}, n, NewLink(links, n, inviter, b))
    ensures Consistent(links[n := NewLink(links, n, inviter, b)], n)
  {
  }

  /** Joining keeps everything the checker demands. */
  lemma JoinKeepsChecks(t: Tables, n: Member, customer: User, inviter: Option<Member>, b: nat, t': Tables)
    requires Coherent(t) && NeverRecycled(t.originals, t.revisions)
    requires Joined(t, n, customer, inviter, b, t')
    ensures Coherent(t')
  {
    var links, rows := Graph(t.originals, t.revisions), Recorded(t.originals, t.revisions);
    JoinPlaceIsFresh(t, n, customer, inviter, b, t');
    if inviter.Some? {
      LatestIsRecorded(t.originals, t.revisions, inviter.value);
      assert (inviter.value, links[inviter.value]) in rows;
      assert Refers(t.originals, inviter.value, links[inviter.value]);
    }
    NewRowSupported(links, rows, n, inviter, b);
    NewcomerKeepsChecks(t.originals, t.revisions, n, t'.originals[n]);
    NewCustomer(t.customers, n, customer);
  }

  lemma NewCustomer(customers: map<Member, User>, n: Member, customer: User)
    requires OneToOne(customers) && customer !in customers.Values
    ensures OneToOne(customers[n := customer])
  {
  }

  /** Joining never hands out a used number, so the unique constraint on original
      numbers cannot refuse it. */
  lemma JoinNeverRecycles(t: Tables, n: Member, customer: User, inviter: Option<Member>, b: nat, t': Tables)
    requires Coherent(t) && NeverRecycled(t.originals, t.revisions)
    requires Joined(t, n, customer, inviter, b, t')
    ensures NeverRecycled(t'.originals, t'.revisions)
    ensures forall k | k in t.originals :: t.originals[k].place != t'.originals[n].place
  {
    JoinPlaceIsFresh(t, n, customer, inviter, b, t');
    NewcomerRecyclesNothing(t.originals, t.revisions, n, t'.originals[n]);
    forall k | k in t.originals
      ensures t.originals[k].place != t'.originals[n].place
    {
      assert (k, t.originals[k]) in Recorded(t.originals, t.revisions);
    }
  }
}
