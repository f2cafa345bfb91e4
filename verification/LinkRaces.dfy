/** Several transactions link records at once: ownerless booking requests, and recovered bookings
    that are written when nobody has them. Each reads a record without locking it and later
    updates it on condition that it is ownerless, or creates it unless it exists; the database
    makes such a write wait for another open transaction on the same record, and a rollback
    undoes it. */
module LinkRaces {
  import opened Wrappers
  import opened BookingHistory

  type TxId = nat

  /** A transaction: for whom it links, what it read, what it linked, which recovered bookings it
      refreshed, and its two counters. */
  datatype Tx = Tx(user: User, seen: map<Record, Option<User>>, linked: set<Record>, touched: set<BookingId>, added: nat, conflicts: nat)

  /** The owner of every record; a recovered booking without one is not written yet. */
  type Owners = map<Record, Option<User>>

  /** The committed owners, for whom each recovered booking was last refreshed, and the
      transactions still open and already committed. */
  datatype World = World(owners: Owners, stamps: map<BookingId, User>, open: map<TxId, Tx>, done: map<TxId, Tx>)

  /** What a transaction sees: its own links, else what is committed. */
  function Sees(w: World, t: Tx, r: Record): Option<User>
    requires r in w.owners
  {
    if r in t.linked then Some(t.user) else w.owners[r]
  }

  /** The record is being linked by another open transaction. */
  predicate Waits(w: World, x: TxId, r: Record)
  {
    exists y | y in w.open :: y != x && r in w.open[y].linked
  }

  /** The recovered booking is being refreshed by another open transaction. */
  predicate Busy(w: World, x: TxId, b: BookingId)
  {
    exists y | y in w.open :: y != x && b in w.open[y].touched
  }

  /** Acting on what was read: somebody else's record is a conflict, the own one is left alone,
      and one that looked ownerless is linked on condition that it still is. When it is not, a
      request is a conflict, and a recovered booking is read again. */
  function Acted(w: World, t: Tx, r: Record): Tx
    requires r in w.owners && r in t.seen
  {
    if t.seen[r].Some? then
      if t.seen[r].value != t.user then t.(conflicts := t.conflicts + 1) else t
    else if Sees(w, t, r).None? then t.(linked := t.linked + {r}, added := t.added + 1)
    else if r.OfHistory? && Sees(w, t, r) == Some(t.user) then t
    else t.(conflicts := t.conflicts + 1)
  }

  /** A recovered booking is refreshed on condition that it is the user's. */
  function Refreshed(w: World, t: Tx, b: BookingId): Tx
    requires OfHistory(b) in w.owners
  {
    if Sees(w, t, OfHistory(b)) == Some(t.user) then t.(touched := t.touched + {b}) else t
  }

  datatype Step =
    | Begin(tx: TxId, user: User)
    | Read(tx: TxId, record: Record)
    | Update(tx: TxId, record: Record)
    | Refresh(tx: TxId, booking: BookingId)
    | Commit(tx: TxId)
    | Rollback(tx: TxId)

  predicate Enabled(w: World, step: Step)
  {
    match step
    case Begin(x, _) => x !in w.open && x !in w.done
    case Read(x, r) => x in w.open && r in w.owners
    case Update(x, r) => x in w.open && r in w.owners && r in w.open[x].seen && (w.open[x].seen[r].None? ==> !Waits(w, x, r))
    case Refresh(x, b) => x in w.open && OfHistory(b) in w.owners && !Busy(w, x, b)
    case Commit(x) => x in w.open
    case Rollback(x) => x in w.open
  }

  function Next(w: World, step: Step): World
    requires Enabled(w, step)
  {
    match step
    case Begin(x, u) => w.(open := w.open[x := Tx(u, map[], {}, {}, 0, 0)])
    case Read(x, r) => w.(open := w.open[x := w.open[x].(seen := w.open[x].seen[r := Sees(w, w.open[x], r)])])
    case Update(x, r) => w.(open := w.open[x := Acted(w, w.open[x], r)])
    case Refresh(x, b) => w.(open := w.open[x := Refreshed(w, w.open[x], b)])
    case Commit(x) =>
      World(map r | r in w.owners :: Sees(w, w.open[x], r),
            w.stamps + map b | b in w.open[x].touched :: w.open[x].user,
            w.open - {x}, w.done[x := w.open[x]])
    case Rollback(x) => w.(open := w.open - {x})
  }

  /** Nothing is open or committed at first, and no recovered booking was refreshed for anyone
      but its owner. */
  ghost predicate Run(worlds: seq<World>, steps: seq<Step>)
  {
    && |worlds| == |steps| + 1
    && worlds[0].open == map[] && worlds[0].done == map[] && StampsFit(worlds[0].owners, worlds[0].stamps)
    && forall j | 0 <= j < |steps| :: Enabled(worlds[j], steps[j]) && worlds[j + 1] == Next(worlds[j], steps[j])
  }

  // ----- What always holds -----

  type Txs = map<TxId, Tx>

  predicate Links(txs: Txs, x: TxId, i: Record) { x in txs && i in txs[x].linked }

  /** No two of these transactions link the same request. */
  ghost predicate Apart(txs: Txs)
  {
    forall x, y, i {:trigger Links(txs, x, i), Links(txs, y, i)} | Links(txs, x, i) && Links(txs, y, i) :: x == y
  }

  ghost predicate Counted(txs: Txs) { forall x | x in txs :: txs[x].added == |txs[x].linked| }

  /** An open transaction links only requests nobody owns, no other open one links them, and
      it counts what it links. */
  ghost predicate OpenFits(w: World)
  {
    && Counted(w.open) && Apart(w.open)
    && (forall x, i {:trigger Links(w.open, x, i)} | Links(w.open, x, i) :: i in w.owners && w.owners[i].None?)
  }

  /** A recovered booking was last refreshed for the user who owns it. */
  ghost predicate StampsFit(owners: Owners, stamps: map<BookingId, User>)
  {
    forall b | b in stamps :: OfHistory(b) in owners && owners[OfHistory(b)] == Some(stamps[b])
  }

  predicate Refreshes(txs: Txs, x: TxId, b: BookingId) { x in txs && b in txs[x].touched }

  /** What an open transaction refreshed is, as it sees it, its user's. */
  ghost predicate FreshFits(w: World)
  {
    forall x, b {:trigger Refreshes(w.open, x, b)} | Refreshes(w.open, x, b) ::
      OfHistory(b) in w.owners && Sees(w, w.open[x], OfHistory(b)) == Some(w.open[x].user)
  }

  /** A committed transaction owns for its user what it linked, and no other one linked it. */
  ghost predicate DoneFits(w: World)
  {
    && Counted(w.done) && Apart(w.done) && w.open.Keys !! w.done.Keys
    && (forall x, i {:trigger Links(w.done, x, i)} | Links(w.done, x, i) :: i in w.owners && w.owners[i] == Some(w.done[x].user))
  }

  /** Requests stay, and an owner once committed stays. */
  ghost predicate OwnersStay(a: Owners, b: Owners)
  {
    b.Keys == a.Keys && forall i | i in a && a[i].Some? :: b[i] == a[i]
  }

  lemma UpdateKeeps(w: World, x: TxId, i: Record)
    requires OpenFits(w) && Enabled(w, Update(x, i))
    ensures OpenFits(Next(w, Update(x, i)))
  {
    var w' := Next(w, Update(x, i));
    forall y, j | Links(w'.open, y, j)
      ensures j in w.owners && w.owners[j].None? && (Links(w.open, y, j) || (y == x && j == i && !Waits(w, x, i)))
    {
      if !Links(w.open, y, j) {
        assert y == x && j == i && Sees(w, w.open[x], i).None?;
      } else {
        assert j in w.owners;
      }
    }
    forall y, z, j | Links(w'.open, y, j) && Links(w'.open, z, j) ensures y == z {
      assert Links(w.open, y, j) && Links(w.open, z, j) ==> y == z;
    }
  }

  lemma CommitKeepsOpen(w: World, x: TxId)
    requires OpenFits(w) && x in w.open
    ensures OpenFits(Next(w, Commit(x))) && OwnersStay(w.owners, Next(w, Commit(x)).owners)
  {
    var w' := Next(w, Commit(x));
    forall y, j | Links(w'.open, y, j) ensures Links(w.open, y, j) && !Links(w.open, x, j) {
      assert Links(w.open, y, j);
    }
    forall j | j in w.owners && w.owners[j].Some? ensures !Links(w.open, x, j) {}
  }

  lemma CommitKeepsDone(w: World, x: TxId)
    requires OpenFits(w) && DoneFits(w) && x in w.open
    ensures DoneFits(Next(w, Commit(x)))
  {
    var w' := Next(w, Commit(x));
    forall y, j | Links(w'.done, y, j)
      ensures j in w'.owners && w'.owners[j] == Some(w'.done[y].user) && (if y == x then Links(w.open, x, j) else Links(w.done, y, j))
    {
      if y == x { assert Links(w.open, x, j); } else { assert Links(w.done, y, j) && !(Links(w.open, x, j)); }
    }
    forall y, z, j | Links(w'.done, y, j) && Links(w'.done, z, j) ensures y == z {
      assert Links(w.done, y, j) && Links(w.done, z, j) ==> y == z;
    }
  }

  lemma LessOpenKeeps(w: World, step: Step)
    requires OpenFits(w) && Enabled(w, step) && (step.Begin? || step.Read? || step.Refresh? || step.Rollback?)
    ensures OpenFits(Next(w, step))
  {
    var w' := Next(w, step);
    forall y, j | Links(w'.open, y, j) ensures Links(w.open, y, j) {}
  }

  lemma StepKeeps(w: World, step: Step)
    requires OpenFits(w) && DoneFits(w) && Enabled(w, step)
    ensures OpenFits(Next(w, step)) && DoneFits(Next(w, step))
    ensures OwnersStay(w.owners, Next(w, step).owners)
  {
    match step
    case Update(x, r) => UpdateKeeps(w, x, r);
    case Commit(x) =>
      CommitKeepsOpen(w, x);
      CommitKeepsDone(w, x);
    case Begin(_, _) => LessOpenKeeps(w, step);
    case Read(_, _) => LessOpenKeeps(w, step);
    case Refresh(_, _) => LessOpenKeeps(w, step);
    case Rollback(_) => LessOpenKeeps(w, step);
  }

  lemma StepKeepsFresh(w: World, step: Step)
    requires OpenFits(w) && FreshFits(w) && StampsFit(w.owners, w.stamps) && Enabled(w, step)
    ensures FreshFits(Next(w, step)) && StampsFit(Next(w, step).owners, Next(w, step).stamps)
  {
    var w' := Next(w, step);
    forall y, b | Refreshes(w'.open, y, b)
      ensures OfHistory(b) in w'.owners && Sees(w', w'.open[y], OfHistory(b)) == Some(w'.open[y].user)
    {
      if Refreshes(w.open, y, b) {
        assert Sees(w, w.open[y], OfHistory(b)) == Some(w.open[y].user);
        if step.Commit? { CommitKeepsSight(w, step.tx, y, OfHistory(b)); }
      }
    }
    if step.Commit? {
      CommitKeepsStamps(w, step.tx);
    }
  }

  /** What an open transaction sees as its own stays its own when another one commits. */
  lemma CommitKeepsSight(w: World, x: TxId, y: TxId, r: Record)
    requires OpenFits(w) && x in w.open && y in w.open && r in w.owners && Sees(w, w.open[y], r) == Some(w.open[y].user)
    ensures Sees(Next(w, Commit(x)), w.open[y], r) == Some(w.open[y].user)
  {
    if r in w.open[x].linked { assert Links(w.open, x, r); }
  }

  lemma CommitKeepsStamps(w: World, x: TxId)
    requires OpenFits(w) && FreshFits(w) && StampsFit(w.owners, w.stamps) && x in w.open
    ensures StampsFit(Next(w, Commit(x)).owners, Next(w, Commit(x)).stamps)
  {
    var w' := Next(w, Commit(x));
    CommitKeepsOpen(w, x);
    forall b | b in w'.stamps ensures OfHistory(b) in w'.owners && w'.owners[OfHistory(b)] == Some(w'.stamps[b]) {
      if b in w.open[x].touched { assert Refreshes(w.open, x, b); }
    }
  }

  lemma {:induction false} RunKeeps(worlds: seq<World>, steps: seq<Step>, n: nat)
    requires Run(worlds, steps) && n < |worlds|
    ensures OpenFits(worlds[n]) && DoneFits(worlds[n])
  {
    if n > 0 {
      RunKeeps(worlds, steps, n - 1);
      StepKeeps(worlds[n - 1], steps[n - 1]);
    }
  }

  /** However transactions interleave, a recovered booking is only ever refreshed for its owner. */
  lemma {:induction false} RefreshedForOwner(worlds: seq<World>, steps: seq<Step>, n: nat)
    requires Run(worlds, steps) && n < |worlds|
    ensures FreshFits(worlds[n]) && StampsFit(worlds[n].owners, worlds[n].stamps)
  {
    if n > 0 {
      RefreshedForOwner(worlds, steps, n - 1);
      RunKeeps(worlds, steps, n - 1);
      StepKeepsFresh(worlds[n - 1], steps[n - 1]);
    }
  }

  /** However reads, conditional updates, commits and rollbacks interleave, an owner once
      committed never changes. */
  lemma {:induction false} OwnersSetOnce(worlds: seq<World>, steps: seq<Step>, j: nat, n: nat)
    requires Run(worlds, steps) && j <= n < |worlds|
    ensures OwnersStay(worlds[j].owners, worlds[n].owners)
    decreases n - j
  {
    if j < n {
      RunKeeps(worlds, steps, j);
      StepKeeps(worlds[j], steps[j]);
      OwnersSetOnce(worlds, steps, j + 1, n);
    }
  }

  /** Every record that got an owner during the run was linked by exactly one committed
      transaction, for that owner, and every committed transaction's counter is the number of
      records it linked. */
  lemma {:induction false} EveryLinkIsCountedOnce(worlds: seq<World>, steps: seq<Step>, n: nat, i: Record)
    requires Run(worlds, steps) && n < |worlds| && i in worlds[0].owners && worlds[0].owners[i].None?
    ensures i in worlds[n].owners
    ensures worlds[n].owners[i].Some? <==> exists x :: Links(worlds[n].done, x, i)
    ensures forall x, y | Links(worlds[n].done, x, i) && Links(worlds[n].done, y, i) :: x == y
    ensures forall x | x in worlds[n].done :: worlds[n].done[x].added == |worlds[n].done[x].linked|
    ensures forall x | Links(worlds[n].done, x, i) :: worlds[n].owners[i] == Some(worlds[n].done[x].user)
  {
    RunKeeps(worlds, steps, n);
    if n > 0 {
      EveryLinkIsCountedOnce(worlds, steps, n - 1, i);
      RunKeeps(worlds, steps, n - 1);
      LinkedMeansDone(worlds[n - 1], steps[n - 1], i);
    }
  }

  lemma LinkedMeansDone(w: World, step: Step, i: Record)
    requires OpenFits(w) && DoneFits(w) && Enabled(w, step) && i in w.owners
    requires w.owners[i].Some? <==> exists x :: Links(w.done, x, i)
    ensures var w' := Next(w, step);
      i in w'.owners && (w'.owners[i].Some? <==> exists x :: Links(w'.done, x, i))
  {
    if step.Commit? {
      var w' := Next(w, step);
      if w.owners[i].Some? {
        var x :| Links(w.done, x, i);
        assert Links(w'.done, x, i);
      }
      if Links(w.open, step.tx, i) {
        assert Links(w'.done, step.tx, i);
      }
      if x :| Links(w'.done, x, i) && x != step.tx {
        assert Links(w.done, x, i);
      }
    }
  }

  /** Acting on a record that was read counts a link exactly when it looked and still is ownerless, and
      a conflict exactly when it was somebody else's, or has an owner by now who for a recovered
      booking is somebody else. */
  lemma UpdateCounts(w: World, x: TxId, r: Record)
    requires Enabled(w, Update(x, r))
    ensures var (t, t') := (w.open[x], Next(w, Update(x, r)).open[x]);
      var owner := if r in t.linked then Some(t.user) else w.owners[r];
      && t'.added == t.added + (if t.seen[r].None? && owner.None? then 1 else 0)
      && t'.conflicts == t.conflicts +
         (if (t.seen[r].Some? && t.seen[r] != Some(t.user)) || (t.seen[r].None? && owner.Some? && (r.OfIntent? || owner != Some(t.user))) then 1 else 0)
  {
  }
}
