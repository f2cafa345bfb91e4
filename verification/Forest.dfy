/** The current invitation forest: who invited whom, and the printed place of
    every member in it. */
module Forest {
  import opened Wrappers
  import opened TreeNumbers

  type Member = nat

  datatype Link = Link(inviter: Option<Member>, root: Member, place: Place, depth: nat, branch: nat)

  type Links = map<Member, Link>

  /** Member k's row agrees with its inviter's row, or is a proper root row. */
  ghost predicate Consistent(links: Links, k: Member)
    requires k in links
  {
    var row := links[k];
    match row.inviter
    case None => row.root == k && row.depth == 0 && row.place == Top(row.branch)
    case Some(p) =>
      && p in links
      && row.root == links[p].root
      && row.depth == links[p].depth + 1
      && row.place == Below(links[p].place, row.branch)
  }

  ghost predicate Sound(links: Links)
  {
    forall k {:trigger Consistent(links, k)} | k in links :: Consistent(links, k)
  }

  ghost predicate DistinctPlaces(links: Links)
  {
    forall j, k | j in links && k in links && links[j].place == links[k].place :: j == k
  }

  /** All inviters above k, nearest first. */
  ghost function Chain(links: Links, k: Member): (chain: seq<Member>)
    requires Sound(links) && k in links
    ensures |chain| == links[k].depth
    ensures forall x | x in chain :: x in links && links[x].depth < links[k].depth
    decreases links[k].depth
  {
    assert Consistent(links, k);
    match links[k].inviter
    case None => []
    case Some(p) => [p] + Chain(links, p)
  }

  /** k is m or one of m's descendants. */
  ghost predicate Under(links: Links, k: Member, m: Member)
    requires Sound(links) && k in links
  {
    k == m || m in Chain(links, k)
  }

  ghost function Branch(links: Links, m: Member): set<Member>
    requires Sound(links)
  {
    set k | k in links && Under(links, k, m)
  }

  lemma UnderStep(links: Links, k: Member, m: Member)
    requires Sound(links) && k in links
    ensures links[k].inviter.Some? ==> links[k].inviter.value in links
    ensures links[k].inviter.Some? && k != m ==>
      (Under(links, k, m) <==> Under(links, links[k].inviter.value, m))
    ensures links[k].inviter.None? ==> (Under(links, k, m) <==> k == m)
  {
    assert Consistent(links, k);
  }

  lemma {:induction false} BranchIsWithin(links: Links, k: Member, m: Member)
    requires Sound(links) && k in links && m in links && Under(links, k, m)
    ensures Within(links[k].place, links[m].place) && links[m].depth <= links[k].depth
    decreases links[k].depth
  {
    assert Consistent(links, k);
    if k != m {
      UnderStep(links, k, m);
      BranchIsWithin(links, links[k].inviter.value, m);
    }
  }

  /** A set that holds m and every child of its members holds m's whole branch. */
  lemma {:induction false} ClosedSetCoversBranch(links: Links, m: Member, affected: set<Member>, k: Member)
    requires Sound(links) && k in links && Under(links, k, m)
    requires m in affected
    requires forall j | j in links && links[j].inviter.Some? && links[j].inviter.value in affected :: j in affected
    ensures k in affected
    decreases links[k].depth
  {
    if k != m {
      UnderStep(links, k, m);
      assert Consistent(links, k);
      ClosedSetCoversBranch(links, m, affected, links[k].inviter.value);
    }
  }

  // ----- Climbing, on any map of links -----

  datatype ChainError = IncompleteData | Cycle

  /** The climb from k on links that need not form a forest: the inviters met, or why it stopped. */
  ghost function Climb(links: Links, k: Member, seen: set<Member>): Result<seq<Member>, ChainError>
    decreases links.Keys - seen, k in links
  {
    if k !in links then Err(IncompleteData)
    else match links[k].inviter
      case None => Ok([])
      case Some(p) =>
        if p in seen then Err(Cycle)
        else
          ShrinkingClimb(links, p, seen);
          match Climb(links, p, seen + {p})
          case Ok(rest) => Ok([p] + rest)
          case Err(e) => Err(e)
  }

  lemma ShrinkingClimb(links: Links, p: Member, seen: set<Member>)
    requires p !in seen
    ensures p in links ==> links.Keys - (seen + {p}) < links.Keys - seen
    ensures p !in links ==> links.Keys - (seen + {p}) == links.Keys - seen
  {
  }

  /** On a sound forest the climb always ends and finds exactly the chain. */
  lemma {:induction false} ClimbFindsChain(links: Links, k: Member, seen: set<Member>)
    requires Sound(links) && k in links
    requires forall x | x in seen && x in links :: links[x].depth >= links[k].depth
    ensures Climb(links, k, seen) == Ok(Chain(links, k))
    decreases links[k].depth
  {
    assert Consistent(links, k);
    if links[k].inviter.Some? {
      ClimbFindsChain(links, links[k].inviter.value, seen + {links[k].inviter.value});
    }
  }

  // ----- Moving a whole branch under a new inviter -----

  /** m may be put under i: m has no inviter yet and i is not in m's branch. */
  ghost predicate Movable(links: Links, m: Member, i: Member)
  {
    && Sound(links) && m in links && i in links
    && links[m].inviter.None?
    && !Under(links, i, m)
  }

  /** Member k's row after m was put under i at branch b. */
  ghost function Moved(links: Links, m: Member, i: Member, b: nat, k: Member): Link
    requires m in links && i in links && k in links && links[m].depth == 0
  {
    var before := links[k];
    Link(
      if k == m then Some(i) else before.inviter,
      links[i].root,
      Rebase(before.place, links[m].place, Below(links[i].place, b)),
      before.depth + (links[i].depth + 1 - links[m].depth),
      if k == m then b else before.branch)
  }

  ghost function MovedBranch(links: Links, m: Member, i: Member, b: nat): (moved: Links)
    requires Movable(links, m, i)
    ensures moved.Keys == Branch(links, m)
  {
    assert Consistent(links, m);
    map k | k in Branch(links, m) :: Moved(links, m, i, b, k)
  }

  ghost function Relinked(links: Links, m: Member, i: Member, b: nat): Links
    requires Movable(links, m, i)
  {
    links + MovedBranch(links, m, i, b)
  }

  lemma MovedRow(links: Links, m: Member, i: Member, b: nat, k: Member)
    requires Movable(links, m, i) && k in Branch(links, m)
    ensures var moved := MovedBranch(links, m, i, b);
      if k == m then moved[k] == Link(Some(i), links[i].root, Below(links[i].place, b), links[i].depth + 1, b)
      else
        && links[k].inviter.Some?
        && links[k].inviter.value in moved
        && var above := moved[links[k].inviter.value];
           moved[k] == Link(links[k].inviter, above.root, Below(above.place, links[k].branch), above.depth + 1, links[k].branch)
  {
    assert Consistent(links, m) && Consistent(links, k);
    UnderStep(links, k, m);
    if k != m {
      SamePlaceOnlyOnce(links, k, m);
    }
  }

  /** The number written for a moved member: m's old number is cut off the front of the
      member's number and m's new number is put there. */
  lemma MovedText(links: Links, m: Member, i: Member, b: nat, k: Member)
    requires Movable(links, m, i) && k in Branch(links, m)
    ensures Text(links[m].place) <= Text(links[k].place)
    ensures Text(MovedBranch(links, m, i, b)[k].place)
         == Child(Text(links[i].place), b) + Text(links[k].place)[|Text(links[m].place)|..]
  {
    BranchIsWithin(links, k, m);
    TextOfRebase(links[k].place, links[m].place, Below(links[i].place, b));
  }

  /** Nobody strictly inside m's branch holds m's own place. */
  lemma SamePlaceOnlyOnce(links: Links, k: Member, m: Member)
    requires Sound(links) && k in links && m in links && k != m && links[m].inviter.None? && Under(links, k, m)
    ensures links[k].place != links[m].place
  {
    UnderStep(links, k, m);
    assert Consistent(links, k) && Consistent(links, m);
  }

  /** Moving a branch keeps every current row consistent with its inviter's row. */
  lemma RelinkedSound(links: Links, m: Member, i: Member, b: nat)
    requires Movable(links, m, i)
    ensures Sound(Relinked(links, m, i, b))
  {
    var after := Relinked(links, m, i, b);
    forall k | k in after
      ensures Consistent(after, k)
    {
      assert Consistent(links, k);
      UnderStep(links, k, m);
      if k in Branch(links, m) {
        MovedRow(links, m, i, b, k);
      }
    }
  }

  /** `after` differs from `links` in one invitation: m, so far a root, was invited by i. */
  ghost predicate OneNewInviter(links: Links, after: Links, m: Member, i: Member)
  {
    && Movable(links, m, i) && Sound(after) && after.Keys == links.Keys
    && after[m].inviter == Some(i)
    && forall k | k in links && k != m :: after[k].inviter == links[k].inviter
  }

  lemma {:induction false} ChainOfOutsider(links: Links, after: Links, m: Member, i: Member, k: Member)
    requires OneNewInviter(links, after, m, i) && k in links && !Under(links, k, m)
    ensures Chain(after, k) == Chain(links, k)
    decreases links[k].depth
  {
    UnderStep(links, k, m);
    assert Consistent(links, k);
    if links[k].inviter.Some? {
      ChainOfOutsider(links, after, m, i, links[k].inviter.value);
    }
  }

  lemma {:induction false} ChainOfInsider(links: Links, after: Links, m: Member, i: Member, k: Member)
    requires OneNewInviter(links, after, m, i) && k in links && Under(links, k, m)
    ensures Chain(after, k) == Chain(links, k) + ([i] + Chain(links, i))
    decreases links[k].depth
  {
    if k == m {
      ChainOfOutsider(links, after, m, i, i);
      ChainUnfolds(after, m);
      ChainUnfolds(links, m);
    } else {
      UnderStep(links, k, m);
      ChainUnfolds(after, k);
      ChainUnfolds(links, k);
      var p := links[k].inviter.value;
      ChainOfInsider(links, after, m, i, p);
      Associative([p], Chain(links, p), [i] + Chain(links, i));
    }
  }

  lemma ChainUnfolds(links: Links, k: Member)
    requires Sound(links) && k in links
    ensures match links[k].inviter
            case None => Chain(links, k) == []
            case Some(p) =>
              p in links && links[p].depth < links[k].depth && Chain(links, k) == [p] + Chain(links, p)
  {
    assert Consistent(links, k);
  }

  lemma Associative<T>(a: seq<T>, b: seq<T>, c: seq<T>)
    ensures a + (b + c) == (a + b) + c
  {
  }

  /** The new chain of every moved member is its old chain, then the new inviter,
      then the new inviter's chain; nobody else's chain changes. */
  lemma ChainLaw(links: Links, m: Member, i: Member, b: nat, k: Member)
    requires Movable(links, m, i) && k in links
    ensures Sound(Relinked(links, m, i, b))
    ensures Chain(Relinked(links, m, i, b), k)
         == if Under(links, k, m) then Chain(links, k) + ([i] + Chain(links, i)) else Chain(links, k)
  {
    RelinkedSound(links, m, i, b);
    forall j | j in Branch(links, m)
      ensures MovedBranch(links, m, i, b)[j].inviter == if j == m then Some(i) else links[j].inviter
    {
      MovedRow(links, m, i, b, j);
    }
    assert OneNewInviter(links, Relinked(links, m, i, b), m, i);
    if Under(links, k, m) {
      ChainOfInsider(links, Relinked(links, m, i, b), m, i, k);
    } else {
      ChainOfOutsider(links, Relinked(links, m, i, b), m, i, k);
    }
  }

  // ----- Numbers never collide -----

  /** A collection of recorded rows in which every row's inviter row is present too. */
  ghost predicate ParentClosed(rows: set<(Member, Link)>)
  {
    forall x, r {:trigger Supported(rows, x, r)} | (x, r) in rows :: Supported(rows, x, r)
  }

  ghost predicate Supported(rows: set<(Member, Link)>, x: Member, r: Link)
  {
    match r.inviter
    case None => r.root == x && r.depth == 0 && r.place == Top(r.branch)
    case Some(i) =>
      && i != x
      && exists p :: (i, p) in rows && r.root == p.root && r.depth == p.depth + 1
                     && r.place == Below(p.place, r.branch)
  }

  /** No row of `rows` already holds a place given out by the move. */
  lemma {:induction false} MovedPlaceIsFresh(
      links: Links, m: Member, i: Member, b: nat, rows: set<(Member, Link)>, k: Member)
    requires Movable(links, m, i) && k in Branch(links, m)
    requires ParentClosed(rows)
    requires forall row | row in rows && row.1.place == links[i].place :: row.0 == i
    requires forall row | row in rows && row.1.inviter == Some(i) :: row.1.branch != b
    ensures forall row | row in rows :: row.1.place != MovedBranch(links, m, i, b)[k].place
    decreases links[k].depth
  {
    MovedRow(links, m, i, b, k);
    assert Consistent(links, k);
    if k != m {
      MovedPlaceIsFresh(links, m, i, b, rows, links[k].inviter.value);
    }
    forall row | row in rows
      ensures row.1.place != MovedBranch(links, m, i, b)[k].place
    {
      assert Supported(rows, row.0, row.1);
    }
  }

  /** Two moved members hold different places. */
  lemma MovedPlacesDiffer(links: Links, m: Member, i: Member, b: nat, j: Member, k: Member)
    requires Movable(links, m, i) && DistinctPlaces(links)
    requires j in Branch(links, m) && k in Branch(links, m)
    requires MovedBranch(links, m, i, b)[j].place == MovedBranch(links, m, i, b)[k].place
    ensures j == k
  {
    BranchIsWithin(links, j, m);
    BranchIsWithin(links, k, m);
    RebaseInjective(links[j].place, links[k].place, links[m].place, Below(links[i].place, b));
  }

  /** After a move no two members share a current place. */
  lemma RelinkedDistinct(links: Links, m: Member, i: Member, b: nat)
    requires Movable(links, m, i) && DistinctPlaces(links)
    requires forall k | k in links && links[k].inviter == Some(i) :: links[k].branch != b
    ensures DistinctPlaces(Relinked(links, m, i, b))
  {
    var rows := set k | k in links && !Under(links, k, m) :: (k, links[k]);
    var moved := MovedBranch(links, m, i, b);
    OutsidersAreClosed(links, m);
    forall j, k | k in moved && j in links && j !in moved
      ensures links[j].place != moved[k].place
    {
      MovedPlaceIsFresh(links, m, i, b, rows, k);
      assert (j, links[j]) in rows;
    }
    forall j, k | j in moved && k in moved && moved[j].place == moved[k].place
      ensures j == k
    {
      MovedPlacesDiffer(links, m, i, b, j, k);
    }
  }

  lemma OutsidersAreClosed(links: Links, m: Member)
    requires Sound(links)
    ensures ParentClosed(set k | k in links && !Under(links, k, m) :: (k, links[k]))
  {
    var rows := set k | k in links && !Under(links, k, m) :: (k, links[k]);
    forall row | row in rows
      ensures Supported(rows, row.0, row.1)
    {
      var k := row.0;
      assert Consistent(links, k);
      UnderStep(links, k, m);
      if links[k].inviter.Some? {
        var p := links[k].inviter.value;
        assert (p, links[p]) in rows;
      }
    }
  }

  /** Every moved row finds its inviter's row among the old rows and the moved rows. */
  lemma MovedRowSupported(links: Links, m: Member, i: Member, b: nat, rows: set<(Member, Link)>, k: Member)
    requires Movable(links, m, i) && k in Branch(links, m)
    requires (i, links[i]) in rows && MovedBranch(links, m, i, b).Items <= rows
    ensures Supported(rows, k, MovedBranch(links, m, i, b)[k])
    ensures MovedBranch(links, m, i, b)[k].inviter.Some?
    ensures MovedBranch(links, m, i, b)[k].inviter.value in links
    ensures MovedBranch(links, m, i, b)[k].root == links[i].root
  {
    var moved := MovedBranch(links, m, i, b);
    MovedRow(links, m, i, b, k);
    if k == m {
      assert (i, links[i]) in rows;
    } else {
      var p := links[k].inviter.value;
      assert (p, moved[p]) in moved.Items;
      BranchIsSameRoot(links, m, i, b, p);
    }
  }

  lemma BranchIsSameRoot(links: Links, m: Member, i: Member, b: nat, k: Member)
    requires Movable(links, m, i) && k in Branch(links, m)
    ensures MovedBranch(links, m, i, b)[k].root == links[i].root
  {
  }

  // ----- A newcomer -----

  lemma NewcomerIsSound(links: Links, n: Member, row: Link)
    requires Sound(links) && n !in links && Consistent(links[n := row], n)
    ensures Sound(links[n := row])
  {
    var after := links[n := row];
    forall k | k in after
      ensures Consistent(after, k)
    {
      if k != n {
        assert Consistent(links, k);
      }
    }
  }

  lemma NewcomerIsDistinct(links: Links, n: Member, row: Link)
    requires DistinctPlaces(links) && n !in links
    requires forall k | k in links :: links[k].place != row.place
    ensures DistinctPlaces(links[n := row])
  {
  }

  lemma SupportSurvives(rows: set<(Member, Link)>, more: set<(Member, Link)>)
    requires ParentClosed(rows) && rows <= more
    ensures forall row | row in rows :: Supported(more, row.0, row.1)
  {
    forall row | row in rows
      ensures Supported(more, row.0, row.1)
    {
      assert Supported(rows, row.0, row.1);
    }
  }
}
