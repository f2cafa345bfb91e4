/** Replaying the points ledger: gap-free numbering, running balances of the programme and
    of every member, and paired transfers. */
module Ledger {
  import opened Wrappers

  type Member = nat
  type User = nat

  datatype Kind = Earn | Adjust | Transfer | Redeem | Other

  /** A financial record named inside a posting's evidence. */
  datatype Evidence = Payment(id: string) | Refund(id: string) | Modification(id: string)

  datatype Entry = Entry(
    sequence: nat, operation: string, event: string, member: Member, component: string,
    group: string, branch: nat, kind: Kind, credit: int, debit: int,
    programAfter: int, memberAfter: int, original: Option<nat>, counterpart: Option<Member>,
    customer: User, membership: string, number: string, evidence: set<Evidence>)

  /** What the snapshot says about a member: account, membership number, every tree number held. */
  datatype Person = Person(customer: User, membership: string, numbers: set<string>)

  datatype Context = Context(members: map<Member, Person>, evidence: set<Evidence>)

  datatype LedgerError =
    | InvalidSequence | DuplicateEvent | IdentityMismatch | InvalidSides | BalanceMismatch
    | InvalidNegative | MissingEvidence | InvalidTransferPair

  // ----- Balances as sums over the history -----

  function Net(e: Entry): int { e.credit - e.debit }

  /** The programme's balance after these entries. */
  function Program(entries: seq<Entry>): int
  {
    if entries == [] then 0 else Program(entries[..|entries| - 1]) + Net(entries[|entries| - 1])
  }

  /** A member's balance after these entries. */
  function Balance(entries: seq<Entry>, m: Member): int
  {
    if entries == [] then 0
    else
      var last := entries[|entries| - 1];
      Balance(entries[..|entries| - 1], m) + (if last.member == m then Net(last) else 0)
  }

  /** The transfer postings of one operation group, in order. */
  function TransfersOf(entries: seq<Entry>, g: string): seq<Entry>
  {
    if entries == [] then []
    else
      var last := entries[|entries| - 1];
      TransfersOf(entries[..|entries| - 1], g) + (if last.kind.Transfer? && last.group == g then [last] else [])
  }

  /** The postings that are not transfers between members. */
  function NonTransfer(entries: seq<Entry>): int
  {
    if entries == [] then 0
    else
      var last := entries[|entries| - 1];
      NonTransfer(entries[..|entries| - 1]) + (if last.kind.Transfer? then 0 else Net(last))
  }

  // ----- What the checker demands -----

  predicate OneSide(e: Entry)
  {
    e.credit >= 0 && e.debit >= 0 && ((e.credit > 0) != (e.debit > 0))
  }

  predicate MayBeNegative(e: Entry)
  {
    e.credit > 0 || (e.kind.Adjust? && e.original.Some?) || e.kind.Redeem?
  }

  predicate Identified(e: Entry, c: Context)
  {
    && e.member in c.members
    && e.customer == c.members[e.member].customer
    && e.membership == c.members[e.member].membership
    && e.number in c.members[e.member].numbers
  }

  ghost predicate SameEvent(a: Entry, b: Entry)
  {
    || a.operation == b.operation
    || (a.event == b.event && a.member == b.member && a.component == b.component)
    || (a.group == b.group && a.branch == b.branch)
  }

  /** Entry k follows from the entries before it. */
  ghost predicate EntryFits(entries: seq<Entry>, k: nat, c: Context)
    requires k < |entries|
  {
    var e := entries[k];
    && e.sequence == k + 1
    && (forall j | 0 <= j < k :: !SameEvent(entries[j], e))
    && Identified(e, c)
    && OneSide(e)
    && e.programAfter == Program(entries[..k + 1])
    && e.memberAfter == Balance(entries[..k + 1], e.member)
    && (e.memberAfter < 0 ==> MayBeNegative(e))
    && e.evidence <= c.evidence
  }

  /** A transfer group is a debit and a credit between two named members. */
  predicate PairFits(pair: seq<Entry>)
  {
    && |pair| == 2
    && pair[1].counterpart == Some(pair[0].member) && pair[0].counterpart == Some(pair[1].member)
    && pair[0].credit == pair[1].debit && pair[0].debit == pair[1].credit
  }

  ghost predicate Replays(entries: seq<Entry>, c: Context)
  {
    && (forall k | 0 <= k < |entries| :: EntryFits(entries, k, c))
    && (forall g :: TransfersOf(entries, g) == [] || PairFits(TransfersOf(entries, g)))
  }

  datatype Totals = Totals(program: int, balances: map<Member, int>)

  function Held(balances: map<Member, int>, m: Member): int { if m in balances then balances[m] else 0 }

  type Balances = map<Member, int>

  /** Everything the replay remembers: both running balances, the names already used and
      the transfer groups. */
  datatype Tally = Tally(
    program: int, balances: Balances,
    operations: set<string>, events: set<(string, Member, string)>, branches: set<(string, nat)>,
    transfers: map<string, seq<Entry>>)

  function GroupOf(transfers: map<string, seq<Entry>>, g: string): seq<Entry>
  {
    if g in transfers then transfers[g] else []
  }

  ghost predicate SumsFit(t: Tally, entries: seq<Entry>)
  {
    && t.program == Program(entries)
    && (forall m :: Held(t.balances, m) == Balance(entries, m))
  }

  ghost predicate NamesFit(t: Tally, entries: seq<Entry>)
  {
    && t.operations == (set j | 0 <= j < |entries| :: entries[j].operation)
    && t.events == (set j | 0 <= j < |entries| :: (entries[j].event, entries[j].member, entries[j].component))
    && t.branches == (set j | 0 <= j < |entries| :: (entries[j].group, entries[j].branch))
  }

  ghost predicate GroupsFit(t: Tally, entries: seq<Entry>)
  {
    forall g :: GroupOf(t.transfers, g) == TransfersOf(entries, g)
  }

  function AddSums(t: Tally, e: Entry): Tally
  {
    t.(program := t.program + e.credit - e.debit,
       balances := t.balances[e.member := Held(t.balances, e.member) + e.credit - e.debit])
  }

  function AddNames(t: Tally, e: Entry): Tally
  {
    t.(operations := t.operations + {e.operation},
       events := t.events + {(e.event, e.member, e.component)},
       branches := t.branches + {(e.group, e.branch)})
  }

  function AddTransfer(t: Tally, e: Entry): Tally
  {
    if e.kind.Transfer? then t.(transfers := t.transfers[e.group := GroupOf(t.transfers, e.group) + [e]]) else t
  }

  lemma AddSumsFits(t: Tally, entries: seq<Entry>, e: Entry)
    requires SumsFit(t, entries)
    ensures SumsFit(AddSums(t, e), entries + [e])
  {
  }

  lemma AddNamesFits(t: Tally, entries: seq<Entry>, e: Entry)
    requires NamesFit(t, entries)
    ensures NamesFit(AddNames(t, e), entries + [e])
  {
    var all := entries + [e];
    assert forall j | 0 <= j < |all| :: all[j] == if j < |entries| then entries[j] else e;
    assert all[|entries|] == e;
    assert forall j | 0 <= j < |entries| :: entries[j] == all[j];
  }

  lemma AddTransferFits(t: Tally, entries: seq<Entry>, e: Entry)
    requires GroupsFit(t, entries)
    ensures GroupsFit(AddTransfer(t, e), entries + [e])
  {
  }

  lemma FreshNames(t: Tally, entries: seq<Entry>, e: Entry)
    requires NamesFit(t, entries)
    ensures (e.operation in t.operations || (e.event, e.member, e.component) in t.events || (e.group, e.branch) in t.branches)
       <==> exists j :: 0 <= j < |entries| && SameEvent(entries[j], e)
  {
  }

  /** Posts entry k onto the tally of the entries before it, or says why it does not follow. */
  method Post(entries: seq<Entry>, k: nat, c: Context, t: Tally) returns (r: Result<Tally, LedgerError>)
    requires k < |entries| && entries[k].member in c.members
    requires SumsFit(t, entries[..k]) && NamesFit(t, entries[..k]) && GroupsFit(t, entries[..k])
    ensures r.Ok? <==> EntryFits(entries, k, c)
    ensures r.Ok? ==>
      SumsFit(r.value, entries[..k + 1]) && NamesFit(r.value, entries[..k + 1]) && GroupsFit(r.value, entries[..k + 1])
  {
    var e := entries[k];
    assert entries[..k + 1] == entries[..k] + [e];
    FreshNames(t, entries[..k], e);
    AddSumsFits(t, entries[..k], e);
    if e.sequence != k + 1 { return Err(InvalidSequence); }
    if e.operation in t.operations || (e.event, e.member, e.component) in t.events || (e.group, e.branch) in t.branches {
      return Err(DuplicateEvent);
    }
    var named := AddNames(t, e);
    AddNamesFits(t, entries[..k], e);
    if !Identified(e, c) { return Err(IdentityMismatch); }
    if !OneSide(e) { return Err(InvalidSides); }
    var summed := AddSums(named, e);
    assert summed.program == AddSums(t, e).program && summed.balances == AddSums(t, e).balances;
    if e.programAfter != summed.program || e.memberAfter != summed.balances[e.member] { return Err(BalanceMismatch); }
    if summed.balances[e.member] < 0 && !MayBeNegative(e) { return Err(InvalidNegative); }
    var grouped := AddTransfer(summed, e);
    AddTransferFits(t, entries[..k], e);
    assert grouped.transfers == AddTransfer(t, e).transfers;
    if !(e.evidence <= c.evidence) { return Err(MissingEvidence); }
    return Ok(grouped);
  }

  /** Replays the ledger once and accepts exactly the ledgers that replay. */
  method Validate(entries: seq<Entry>, c: Context) returns (r: Result<Totals, LedgerError>)
    requires forall k | 0 <= k < |entries| :: entries[k].member in c.members
    ensures r.Ok? <==> Replays(entries, c)
    ensures r.Ok? ==> r.value.program == Program(entries) && forall m :: Held(r.value.balances, m) == Balance(entries, m)
  {
    var t := Tally(0, map[], {}, {}, {}, map[]);
    var k := 0;
    while k < |entries|
      invariant 0 <= k <= |entries|
      invariant forall j | 0 <= j < k :: EntryFits(entries, j, c)
      invariant SumsFit(t, entries[..k]) && NamesFit(t, entries[..k]) && GroupsFit(t, entries[..k])
    {
      var posted := Post(entries, k, c, t);
      if posted.Err? { return Err(posted.error); }
      t := posted.value;
      k := k + 1;
    }
    assert entries[..k] == entries;
    if exists g | g in t.transfers :: t.transfers[g] != [] && !PairFits(t.transfers[g]) {
      var g :| g in t.transfers && t.transfers[g] != [] && !PairFits(t.transfers[g]);
      assert GroupOf(t.transfers, g) == TransfersOf(entries, g);
      return Err(InvalidTransferPair);
    }
    forall g
      ensures TransfersOf(entries, g) == [] || PairFits(TransfersOf(entries, g))
    {
      assert GroupOf(t.transfers, g) == TransfersOf(entries, g);
    }
    return Ok(Totals(t.program, t.balances));
  }

  // ----- Laws of every accepted ledger -----

  /** The sum of a quantity over a finite set. */
  ghost function Sum<T(!new)>(xs: set<T>, f: T -> int): int
  {
    if xs == {} then 0
    else
      var x :| x in xs;
      f(x) + Sum(xs - {x}, f)
  }

  lemma {:induction false} SumTakesOut<T(!new)>(xs: set<T>, f: T -> int, x: T)
    requires x in xs
    ensures Sum(xs, f) == f(x) + Sum(xs - {x}, f)
    decreases xs
  {
    var y :| y in xs && Sum(xs, f) == f(y) + Sum(xs - {y}, f);
    if y != x {
      SumTakesOut(xs - {y}, f, x);
      SumTakesOut(xs - {x}, f, y);
      assert xs - {y} - {x} == xs - {x} - {y};
    }
  }

  lemma {:induction false} SumSame<T(!new)>(xs: set<T>, f: T -> int, g: T -> int)
    requires forall x | x in xs :: f(x) == g(x)
    ensures Sum(xs, f) == Sum(xs, g)
    decreases xs
  {
    if xs != {} {
      var x :| x in xs;
      SumTakesOut(xs, f, x);
      SumTakesOut(xs, g, x);
      SumSame(xs - {x}, f, g);
    }
  }

  /** Raising the quantity at one element raises the sum by as much. */
  lemma SumChanges<T(!new)>(xs: set<T>, f: T -> int, g: T -> int, x: T)
    requires x in xs && forall y | y in xs && y != x :: f(y) == g(y)
    ensures Sum(xs, g) == Sum(xs, f) + g(x) - f(x)
  {
    SumTakesOut(xs, f, x);
    SumTakesOut(xs, g, x);
    SumSame(xs - {x}, f, g);
  }

  lemma {:induction false} SumOfZeros<T(!new)>(xs: set<T>, f: T -> int)
    requires forall x | x in xs :: f(x) == 0
    ensures Sum(xs, f) == 0
    decreases xs
  {
    if xs != {} {
      var x :| x in xs;
      SumTakesOut(xs, f, x);
      SumOfZeros(xs - {x}, f);
    }
  }

  /** The programme's balance is the sum of all members' balances. */
  lemma {:induction false} ProgramIsSumOfMembers(entries: seq<Entry>, members: set<Member>)
    requires forall k | 0 <= k < |entries| :: entries[k].member in members
    ensures Program(entries) == Sum(members, m => Balance(entries, m))
  {
    if entries == [] {
      SumOfZeros(members, m => Balance(entries, m));
    } else {
      var before, last := entries[..|entries| - 1], entries[|entries| - 1];
      ProgramIsSumOfMembers(before, members);
      SumChanges(members, m => Balance(before, m), m => Balance(entries, m), last.member);
    }
  }

  /** At every prefix of an accepted ledger the recorded programme balance is the sum of
      the members' running balances, and the recorded member balance is that member's. */
  lemma RecordedBalancesAgree(entries: seq<Entry>, c: Context, k: nat)
    requires Replays(entries, c) && k < |entries|
    ensures entries[k].programAfter == Sum(c.members.Keys, m => Balance(entries[..k + 1], m))
    ensures entries[k].memberAfter == Balance(entries[..k + 1], entries[k].member)
  {
    var prefix := entries[..k + 1];
    forall j | 0 <= j < |prefix|
      ensures prefix[j].member in c.members.Keys
    {
      assert EntryFits(entries, j, c);
    }
    assert EntryFits(entries, k, c);
    ProgramIsSumOfMembers(prefix, c.members.Keys);
  }

  function NetOf(entries: seq<Entry>): int
  {
    if entries == [] then 0 else NetOf(entries[..|entries| - 1]) + Net(entries[|entries| - 1])
  }

  /** A paired transfer group moves points without creating or destroying any. */
  lemma PairNetsToZero(pair: seq<Entry>)
    requires PairFits(pair)
    ensures NetOf(pair) == 0
  {
    assert pair[..1][..0] == [] && pair[..2] == pair;
    assert NetOf(pair[..1]) == Net(pair[0]);
  }

  lemma GroupNetGrows(entries: seq<Entry>, g: string)
    requires entries != []
    ensures var (before, last) := (entries[..|entries| - 1], entries[|entries| - 1]);
      NetOf(TransfersOf(entries, g)) == NetOf(TransfersOf(before, g)) + (if last.kind.Transfer? && last.group == g then Net(last) else 0)
  {
    var before, last := TransfersOf(entries[..|entries| - 1], g), entries[|entries| - 1];
    assert (before + [last])[..|before|] == before;
    assert before + [] == before;
  }

  /** Program balance = transfers grouped + everything else. */
  lemma {:induction false} ProgramSplits(entries: seq<Entry>, groups: set<string>)
    requires forall k | 0 <= k < |entries| && entries[k].kind.Transfer? :: entries[k].group in groups
    ensures Program(entries) == NonTransfer(entries) + Sum(groups, GroupNet(entries))
  {
    if entries == [] {
      SumOfZeros(groups, GroupNet(entries));
    } else {
      var before, last := entries[..|entries| - 1], entries[|entries| - 1];
      ProgramSplits(before, groups);
      GroupsGrow(entries, groups);
    }
  }

  ghost function GroupNet(entries: seq<Entry>): string -> int { g => NetOf(TransfersOf(entries, g)) }

  lemma GroupsGrow(entries: seq<Entry>, groups: set<string>)
    requires entries != [] && (entries[|entries| - 1].kind.Transfer? ==> entries[|entries| - 1].group in groups)
    ensures var (before, last) := (entries[..|entries| - 1], entries[|entries| - 1]);
      Sum(groups, GroupNet(entries)) == Sum(groups, GroupNet(before)) + (if last.kind.Transfer? then Net(last) else 0)
  {
    var before, last := entries[..|entries| - 1], entries[|entries| - 1];
    forall g
      ensures GroupNet(entries)(g) == GroupNet(before)(g) + (if last.kind.Transfer? && last.group == g then Net(last) else 0)
    {
      GroupNetGrows(entries, g);
    }
    if last.kind.Transfer? {
      SumChanges(groups, GroupNet(before), GroupNet(entries), last.group);
    } else {
      SumSame(groups, GroupNet(before), GroupNet(entries));
    }
  }

  /** Transfers cancel out: the final total is the sum of the postings that are not transfers. */
  lemma TransfersCancel(entries: seq<Entry>, c: Context)
    requires Replays(entries, c)
    ensures Program(entries) == NonTransfer(entries)
  {
    var groups := set k | 0 <= k < |entries| :: entries[k].group;
    ProgramSplits(entries, groups);
    forall g | g in groups
      ensures NetOf(TransfersOf(entries, g)) == 0
    {
      if TransfersOf(entries, g) != [] {
        PairNetsToZero(TransfersOf(entries, g));
      }
    }
    SumOfZeros(groups, GroupNet(entries));
  }

  /** A member goes from a non-negative balance to a negative one only by a linked
      adjustment or a redemption. */
  lemma OnlyCorrectionsOverdraw(entries: seq<Entry>, c: Context, k: nat)
    requires Replays(entries, c) && k < |entries|
    requires Balance(entries[..k], entries[k].member) >= 0 > Balance(entries[..k + 1], entries[k].member)
    ensures entries[k].debit > 0
    ensures (entries[k].kind.Adjust? && entries[k].original.Some?) || entries[k].kind.Redeem?
  {
    assert EntryFits(entries, k, c);
    assert entries[..k + 1][..k] == entries[..k];
  }

  // ----- What an accepted ledger says, posting by posting -----

  /** The posting is numbered in turn, under an operation, an event and a group place of its own, on a
      member with that member's account, membership number and one of its tree numbers; it has
      exactly one positive side, states both balances, goes below zero only for a credit, a linked
      correction or a redemption, and names only records that are there. */
  ghost predicate SoundPosting(entries: seq<Entry>, k: nat, c: Context)
    requires k < |entries|
  {
    var e := entries[k];
    && e.sequence == k + 1
    && (forall j | 0 <= j < k ::
          && entries[j].operation != e.operation
          && (entries[j].event, entries[j].member, entries[j].component) != (e.event, e.member, e.component)
          && (entries[j].group, entries[j].branch) != (e.group, e.branch))
    && e.member in c.members && var who := c.members[e.member];
    && e.customer == who.customer && e.membership == who.membership && e.number in who.numbers
    && ((e.credit > 0 && e.debit == 0) || (e.credit == 0 && e.debit > 0))
    && e.programAfter == Program(entries[..k + 1]) && e.memberAfter == Balance(entries[..k + 1], e.member)
    && (e.memberAfter < 0 ==> e.credit > 0 || (e.kind == Adjust && e.original.Some?) || e.kind == Redeem)
    && forall x | x in e.evidence :: x in c.evidence
  }

  /** The two transfer postings of a group: each names the other's member, and what one is credited the
      other is debited. */
  predicate Mirrored(a: Entry, b: Entry)
  {
    && a.kind == Transfer && b.kind == Transfer && a.group == b.group
    && a.counterpart == Some(b.member) && b.counterpart == Some(a.member) && a.credit == b.debit && a.debit == b.credit
  }

  /** Exactly one other transfer posting shares posting k's group, and it mirrors it. */
  ghost predicate HasPartner(entries: seq<Entry>, k: nat)
    requires k < |entries|
  {
    exists j: nat :: j < |entries| && j != k && Mirrored(entries[j], entries[k]) && OnlyPair(entries, j, k)
  }

  ghost predicate OnlyPair(entries: seq<Entry>, j: nat, k: nat)
    requires j < |entries| && k < |entries|
  {
    forall i: nat | i < |entries| && entries[i].kind == Transfer && entries[i].group == entries[k].group :: i == j || i == k
  }

  lemma PostingExactly(entries: seq<Entry>, k: nat, c: Context)
    requires k < |entries|
    ensures EntryFits(entries, k, c) <==> SoundPosting(entries, k, c)
  {
    if EntryFits(entries, k, c) {
      forall j | 0 <= j < k ensures !SameEvent(entries[j], entries[k]) {}
    }
    if SoundPosting(entries, k, c) {
      forall j | 0 <= j < k ensures !SameEvent(entries[j], entries[k]) {}
    }
  }

  /** The transfer postings of a group are found where the ledger has them, in order. */
  ghost predicate Places(entries: seq<Entry>, g: string, at: seq<nat>)
  {
    && |at| == |TransfersOf(entries, g)|
    && (forall a | 0 <= a < |at| :: at[a] < |entries| && entries[at[a]] == TransfersOf(entries, g)[a])
    && (forall a, b | 0 <= a < b < |at| :: at[a] < at[b])
    && forall i: nat | i < |entries| && entries[i].kind == Transfer && entries[i].group == g :: i in at
  }

  lemma {:induction false} PlacesOf(entries: seq<Entry>, g: string) returns (at: seq<nat>)
    ensures Places(entries, g, at)
    ensures forall a | 0 <= a < |at| :: entries[at[a]].kind == Transfer && entries[at[a]].group == g
  {
    if entries == [] {
      at := [];
    } else {
      var before, last := entries[..|entries| - 1], entries[|entries| - 1];
      at := PlacesOf(before, g);
      if last.kind.Transfer? && last.group == g {
        at := at + [|entries| - 1];
      } else {
        assert TransfersOf(entries, g) == TransfersOf(before, g);
      }
    }
  }

  lemma PairExactly(entries: seq<Entry>, g: string)
    ensures TransfersOf(entries, g) == [] || PairFits(TransfersOf(entries, g)) <==>
      forall k: nat | k < |entries| && entries[k].kind == Transfer && entries[k].group == g :: HasPartner(entries, k)
  {
    var at := PlacesOf(entries, g);
    var pair := TransfersOf(entries, g);
    if pair != [] && PairFits(pair) {
      assert Mirrored(entries[at[0]], entries[at[1]]) && Mirrored(entries[at[1]], entries[at[0]]);
      forall k: nat | k < |entries| && entries[k].kind == Transfer && entries[k].group == g ensures HasPartner(entries, k) {
        assert k in at;
        var j := if k == at[0] then at[1] else at[0];
        assert OnlyPair(entries, j, k);
      }
    }
    if pair == [] {
      assert at == [];
    }
    if pair != [] && (forall k: nat | k < |entries| && entries[k].kind == Transfer && entries[k].group == g :: HasPartner(entries, k)) {
      PairOfPartner(entries, g, at);
    }
  }

  lemma PairOfPartner(entries: seq<Entry>, g: string, at: seq<nat>)
    requires Places(entries, g, at) && at != [] && at[0] < |entries| && HasPartner(entries, at[0])
    requires forall a | 0 <= a < |at| :: entries[at[a]].kind == Transfer && entries[at[a]].group == g
    ensures PairFits(TransfersOf(entries, g))
  {
    var j: nat :| j < |entries| && j != at[0] && Mirrored(entries[j], entries[at[0]]) && OnlyPair(entries, j, at[0]);
    assert j in at;
    var b :| 0 <= b < |at| && at[b] == j;
    forall a | 0 < a < |at| ensures at[a] == j {
      assert at[0] < at[a];
    }
    SamePlace(at, 1, b);
    SamePlace(at, |at| - 1, b);
  }

  lemma SamePlace(at: seq<nat>, a: nat, b: nat)
    requires forall x, y | 0 <= x < y < |at| :: at[x] < at[y]
    requires a < |at| && b < |at| && at[a] == at[b]
    ensures a == b
  {
  }

  /** A ledger is accepted exactly when every posting is sound and every transfer has its one partner. */
  lemma ReplaysExactly(entries: seq<Entry>, c: Context)
    ensures Replays(entries, c) <==>
      && (forall k: nat | k < |entries| :: SoundPosting(entries, k, c))
      && (forall k: nat | k < |entries| && entries[k].kind == Transfer :: HasPartner(entries, k))
  {
    forall k: nat | k < |entries| ensures EntryFits(entries, k, c) <==> SoundPosting(entries, k, c) { PostingExactly(entries, k, c); }
    forall g ensures TransfersOf(entries, g) == [] || PairFits(TransfersOf(entries, g)) <==>
      forall k: nat | k < |entries| && entries[k].kind == Transfer && entries[k].group == g :: HasPartner(entries, k)
    {
      PairExactly(entries, g);
    }
    if Replays(entries, c) {
      forall k: nat | k < |entries| && entries[k].kind == Transfer ensures HasPartner(entries, k) {
        assert TransfersOf(entries, entries[k].group) == [] || PairFits(TransfersOf(entries, entries[k].group));
      }
    }
  }
}
