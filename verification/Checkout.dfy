/** Paying a booking with points: the hold, its freeze while an inventory create may be
    under way, and the single redemption. */
module Checkout {
  import opened Wrappers

  type Member = nat

  datatype Stay = Awaiting | Ready | Live | Closed | Other

  datatype Payment =
    | Created | Pending | Succeeded | Failed | Cancelled | Expired
    | Refunded | PartlyRefunded | Review | Unknown

  datatype Hold = Hold(value: int, member: Member)

  datatype Frozen = Frozen(cash: int, points: int)

  /** Amounts are cents; `lodging` is the documented total in riyals, `member` the customer's membership. */
  datatype Booking = Booking(
    stay: Stay, hold: Option<Hold>, frozen: Option<Frozen>, started: bool, redemption: Option<int>,
    payments: seq<Payment>, gross: int, lodging: int, member: Option<Member>, intentExpired: bool)

  /** How an inventory create ended; `Unsure` is every code that settles nothing. */
  datatype Code = Confirmed | AlreadyConfirmed | AvailabilityLost | PriceChanged | CreateRejected | Unsure

  datatype Task = NoTask | Calling | Answered(code: Code)

  /** The booking, the confirmation under way, and every create issued with its answer so far. */
  datatype World = World(booking: Booking, task: Task, creates: seq<Option<Code>>)

  predicate Definite(c: Code) { c.AvailabilityLost? || c.PriceChanged? || c.CreateRejected? }

  /** A payment that is not certainly dead. */
  predicate Blocking(p: Payment) { !(p.Failed? || p.Cancelled? || p.Expired?) }

  predicate Blocked(b: Booking) { exists p | p in b.payments :: Blocking(p) }

  /** Cash still to collect, or None when the allocation does not fit the booking. */
  function CashDue(b: Booking): Option<int>
  {
    if b.hold.None? && b.redemption.None? then Some(b.gross)
    else if b.member.None? || b.gross != b.lodging then None
    else if b.hold.Some? && b.hold.value.member != b.member.value then None
    else
      var points := Allocation(b).value;
      if b.gross < points then None else Some(b.gross - points)
  }

  /** The points held for the booking, or already spent on it. */
  function Allocation(b: Booking): Option<int>
  {
    if b.hold.Some? then Some(b.hold.value.value) else b.redemption
  }

  /** Asking for the cash with a freeze writes the split of the price down. */
  function Freeze(b: Booking): Booking
  {
    if Allocation(b).Some? && CashDue(b).Some? then b.(frozen := Some(Frozen(CashDue(b).value, Allocation(b).value))) else b
  }

  predicate ReleaseAllowed(b: Booking) { !b.started && !(b.frozen.Some? && Blocked(b)) }

  predicate MayHold(b: Booking, m: Member, value: int, available: int)
  {
    && b.member == Some(m)
    && (b.stay.Awaiting? || b.stay.Ready?) && b.hold.None? && b.redemption.None? && !Blocked(b)
    && 0 < value <= b.lodging && value <= available
  }

  predicate MayConfirm(b: Booking)
  {
    && b.redemption.None? && !b.started
    && b.stay.Awaiting? && b.hold.Some? && CashDue(b) == Some(0) && !Blocked(b)
  }

  predicate MayRedeem(b: Booking, m: Member)
  {
    b.member == Some(m) && b.redemption.None? && b.stay.Live? && b.hold.Some? && b.hold.value.member == m
  }

  function Released(b: Booking): Booking { b.(hold := None, frozen := None) }

  function Redeemed(b: Booking, m: Member): Booking
  {
    if MayRedeem(b, m) then b.(hold := None, redemption := Some(b.hold.value.value)) else b
  }

  /** Confirming freezes the allocation, marks the booking and issues one inventory create. */
  function Start(w: World): World
  {
    if !MayConfirm(w.booking) then w
    else w.(booking := Freeze(w.booking).(started := true),
            task := Calling, creates := w.creates + [None])
  }

  function Answer(w: World, code: Code): World
  {
    if w.task.Calling? && w.creates != []
    then w.(task := Answered(code), creates := w.creates[|w.creates| - 1 := Some(code)])
    else w
  }

  /** A confirmed create redeems the hold, a definite failure gives the points back, and
      anything else leaves them held. */
  function Finish(w: World): World
  {
    match w.task
    case Answered(code) =>
      var b := w.booking;
      w.(task := NoTask,
         booking :=
           if code.Confirmed? || code.AlreadyConfirmed? then
             if b.member.Some? then Redeemed(b, b.member.value) else b
           else if Definite(code) then Released(b).(started := false)
           else b)
    case _ => w
  }

  function Expire(b: Booking): Booking
  {
    if b.hold.Some? && !b.stay.Live? && b.intentExpired && ReleaseAllowed(b) then Released(b) else b
  }

  /** `Elsewhere`: the stay, its price and its payments change outside this file. */
  datatype Step =
    | HoldStep(value: int, member: Member, available: int)
    | ReleaseStep
    | ExpireStep
    | FreezeStep
    | StartStep
    | AnswerStep(code: Code)
    | FinishStep
    | DieStep
    | RedeemStep(member: Member)
    | Elsewhere(stay: Stay, payments: seq<Payment>, gross: int, lodging: int, owner: Option<Member>, intentExpired: bool)

  function Next(w: World, step: Step): World
  {
    var b := w.booking;
    match step
    case HoldStep(value, m, available) =>
      if MayHold(b, m, value, available) then w.(booking := b.(hold := Some(Hold(value, m)))) else w
    case ReleaseStep => if ReleaseAllowed(b) then w.(booking := Released(b)) else w
    case ExpireStep => w.(booking := Expire(b))
    case FreezeStep => w.(booking := Freeze(b))
    case StartStep => Start(w)
    case AnswerStep(code) => Answer(w, code)
    case FinishStep => Finish(w)
    case DieStep => w.(task := NoTask)
    case RedeemStep(m) => w.(booking := Redeemed(b, m))
    case Elsewhere(stay, payments, gross, lodging, owner, expired) =>
      w.(booking := b.(stay := stay, payments := payments, gross := gross, lodging := lodging, member := owner, intentExpired := expired))
  }

  predicate Run(worlds: seq<World>, steps: seq<Step>)
  {
    && |worlds| == |steps| + 1
    && worlds[0].task == NoTask && worlds[0].creates == []
    && worlds[0].booking.hold.None? && worlds[0].booking.redemption.None?
    && worlds[0].booking.frozen.None? && !worlds[0].booking.started
    && forall j | 0 <= j < |steps| :: worlds[j + 1] == Next(worlds[j], steps[j])
  }

  // ----- What always holds -----

  predicate Settled(c: Option<Code>) { c.Some? && Definite(c.value) }

  /** The mark means exactly that the last create issued has not certainly failed. */
  predicate CreatesFit(w: World)
  {
    && (forall j | 0 <= j < |w.creates| - 1 :: Settled(w.creates[j]))
    && (w.creates != [] && !w.booking.started ==> Settled(w.creates[|w.creates| - 1]))
    && (w.booking.started ==> w.creates != [])
    && (w.task.Calling? ==> w.booking.started && w.creates[|w.creates| - 1] == None)
    && (w.task.Answered? ==> w.booking.started && w.creates[|w.creates| - 1] == Some(w.task.code))
  }

  /** Points are either held or spent, a frozen split names exactly those points, and a
      confirmation under way has one. */
  predicate PointsFit(b: Booking)
  {
    && !(b.hold.Some? && b.redemption.Some?)
    && (b.frozen.Some? ==> Allocation(b) == Some(b.frozen.value.points))
    && (b.started ==> b.frozen.Some?)
  }

  predicate Invariant(w: World) { CreatesFit(w) && PointsFit(w.booking) }

  lemma StepKeeps(w: World, step: Step)
    requires Invariant(w)
    ensures Invariant(Next(w, step))
  {
  }

  lemma {:induction false} RunKeepsInvariant(worlds: seq<World>, steps: seq<Step>, n: nat)
    requires Run(worlds, steps) && n < |worlds|
    ensures Invariant(worlds[n])
  {
    if n > 0 {
      RunKeepsInvariant(worlds, steps, n - 1);
      StepKeeps(worlds[n - 1], steps[n - 1]);
    }
  }

  /** A further create for a booking is issued only after every earlier one came back with
      a definite failure. */
  lemma NextCreateNeedsDefiniteFailure(worlds: seq<World>, steps: seq<Step>, n: nat, j: nat)
    requires Run(worlds, steps) && n < |steps|
    requires |worlds[n + 1].creates| > |worlds[n].creates| && j < |worlds[n].creates|
    ensures worlds[n].creates[j] in {Some(AvailabilityLost), Some(PriceChanged), Some(CreateRejected)}
    ensures worlds[n + 1].creates[j] == worlds[n].creates[j]
    ensures steps[n].StartStep? && CashDue(worlds[n].booking) == Some(0)
  {
    RunKeepsInvariant(worlds, steps, n);
  }

  /** Whenever a split is frozen, cash and points make up the price; a confirmation leaves no
      cash to collect. */
  lemma SplitCoversPrice(w: World, step: Step)
    requires Next(w, step).booking.frozen.Some? && Next(w, step).booking.frozen != w.booking.frozen
    ensures var (b, split) := (w.booking, Next(w, step).booking.frozen.value);
      && split.cash >= 0 && split.cash + split.points == b.gross == b.lodging
      && Allocation(b) == Some(split.points)
      && (step.StartStep? ==> split.cash == 0)
  {
  }

  /** Some create may have succeeded: it has no answer, or none that proves failure. */
  predicate Unresolved(w: World) { exists j | 0 <= j < |w.creates| :: !Settled(w.creates[j]) }

  /** The step redeems the hold: a redemption of the live booking, or the booking of a
      confirmed create. */
  predicate Spends(w: World, step: Step)
  {
    match step
    case RedeemStep(m) => MayRedeem(w.booking, m)
    case FinishStep =>
      && w.task.Answered? && (w.task.code.Confirmed? || w.task.code.AlreadyConfirmed?)
      && w.booking.member.Some? && MayRedeem(w.booking, w.booking.member.value)
    case _ => false
  }

  /** While a create may have succeeded, the hold stays as it is exactly until a step redeems
      it, and then it is spent in full. */
  lemma UnresolvedKeepsHold(w: World, step: Step)
    requires Invariant(w) && Unresolved(w) && w.booking.hold.Some?
    ensures Next(w, step).booking.hold == w.booking.hold <==> !Spends(w, step)
    ensures var (b, c) := (w.booking, Next(w, step).booking);
      (c.hold == b.hold && c.redemption.None?) || (c.hold.None? && c.redemption == Some(b.hold.value.value))
  {
  }

  /** It can happen that the hold is spent while the only create has no answer yet: the
      booking goes live elsewhere and is redeemed before the answer arrives. */
  lemma HoldCanBeSpentUnanswered() returns (worlds: seq<World>, steps: seq<Step>)
    ensures Run(worlds, steps) && |steps| == 4
    ensures worlds[3].booking.hold.Some? && worlds[3].creates == [None]
    ensures Spends(worlds[3], steps[3]) && worlds[4].booking.hold.None? && worlds[4].creates == [None]
  {
    var b := Booking(Awaiting, None, None, false, None, [], 100, 100, Some(1), false);
    steps := [HoldStep(100, 1, 100), StartStep, Elsewhere(Live, [], 100, 100, Some(1), false), RedeemStep(1)];
    var w0 := World(b, NoTask, []);
    var w1 := Next(w0, steps[0]);
    var w2 := Next(w1, steps[1]);
    var w3 := Next(w2, steps[2]);
    worlds := [w0, w1, w2, w3, Next(w3, steps[3])];
    assert !Blocked(b) && CashDue(w1.booking) == Some(0);
  }

  lemma {:induction false} SpentStaysSpent(worlds: seq<World>, steps: seq<Step>, j: nat, n: nat)
    requires Run(worlds, steps) && j <= n < |worlds| && worlds[j].booking.redemption.Some?
    ensures worlds[n].booking.redemption == worlds[j].booking.redemption && worlds[n].booking.hold.None?
    decreases n - j
  {
    RunKeepsInvariant(worlds, steps, n);
    if j < n {
      SpentStaysSpent(worlds, steps, j, n - 1);
    }
  }

  /** As long as outcomes stay unresolved, the points held at the start are still held, or
      were spent in full and once. */
  lemma {:induction false} HeldOrSpent(worlds: seq<World>, steps: seq<Step>, j: nat, n: nat)
    requires Run(worlds, steps) && j <= n < |worlds| && worlds[j].booking.hold.Some?
    requires forall k | j <= k < n :: Unresolved(worlds[k])
    ensures var (b, c) := (worlds[j].booking, worlds[n].booking);
      (c.hold == b.hold && c.redemption.None?) || (c.hold.None? && c.redemption == Some(b.hold.value.value))
    decreases n - j
  {
    if j < n {
      HeldOrSpent(worlds, steps, j, n - 1);
      RunKeepsInvariant(worlds, steps, n - 1);
      if worlds[n - 1].booking.hold.Some? {
        UnresolvedKeepsHold(worlds[n - 1], steps[n - 1]);
      } else {
        SpentStaysSpent(worlds, steps, n - 1, n);
      }
    } else {
      RunKeepsInvariant(worlds, steps, n);
    }
  }

  // ----- When each transaction goes through -----

  /** Every payment certainly failed, was cancelled or ran out. */
  predicate AllDead(payments: seq<Payment>) { forall p | p in payments :: p == Failed || p == Cancelled || p == Expired }

  /** Points can be held exactly by the booking's own member, before anything is booked, when none
      are allocated and no payment is about, up to the lodging price and what is available. */
  predicate Holdable(b: Booking, m: Member, value: int, available: int)
  {
    && b.member == Some(m) && (b.stay == Awaiting || b.stay == Ready) && b.hold.None? && b.redemption.None?
    && AllDead(b.payments) && 0 < value <= b.lodging && value <= available
  }

  lemma HoldExactly(w: World, value: int, m: Member, available: int)
    ensures Next(w, HoldStep(value, m, available))
      == if Holdable(w.booking, m, value, available) then w.(booking := w.booking.(hold := Some(Hold(value, m)))) else w
  {
  }

  /** Held points can be given back exactly while no create of the booking may have succeeded, and no
      payment stands against a frozen split. */
  predicate Releasable(b: Booking) { !b.started && (b.frozen.Some? ==> AllDead(b.payments)) }

  lemma ReleaseExactly(w: World)
    ensures Next(w, ReleaseStep) == if Releasable(w.booking) then w.(booking := w.booking.(hold := None, frozen := None)) else w
    ensures Next(w, ExpireStep) ==
      if w.booking.hold.Some? && w.booking.stay != Live && w.booking.intentExpired && Releasable(w.booking)
      then w.(booking := w.booking.(hold := None, frozen := None)) else w
  {
  }

  /** The points of the booking fit it: its present member's, for a booking that is lodging only. */
  predicate FitsBooking(b: Booking, points: int)
  {
    && b.member.Some? && b.gross == b.lodging && points <= b.gross
    && (b.hold.Some? ==> b.hold.value.member == b.member.value && points == b.hold.value.value)
    && (b.hold.None? ==> b.redemption == Some(points))
  }

  /** The cash to collect: the whole price without points, the rest of it with points that fit. */
  lemma CashExactly(b: Booking, cash: int)
    ensures CashDue(b) == Some(cash) <==>
      if b.hold.None? && b.redemption.None? then cash == b.gross else FitsBooking(b, b.gross - cash)
  {
  }

  /** A booking is confirmed with points alone exactly while it waits, unmarked and unredeemed, with its
      own member's points for the whole price and no payment about. */
  predicate Confirmable(b: Booking)
  {
    && b.stay == Awaiting && !b.started && b.redemption.None? && b.hold.Some? && FitsBooking(b, b.gross) && AllDead(b.payments)
  }

  lemma StartExactly(w: World)
    ensures Next(w, StartStep) ==
      if Confirmable(w.booking)
      then World(w.booking.(frozen := Some(Frozen(0, w.booking.gross)), started := true), Calling, w.creates + [None]) else w
  {
    CashExactly(w.booking, 0);
  }

  /** Points are spent exactly on a live booking, by the member who holds them and owns it. */
  predicate Redeemable(b: Booking, m: Member)
  {
    b.stay == Live && b.redemption.None? && b.hold.Some? && b.hold.value.member == m && b.member == Some(m)
  }

  lemma RedeemExactly(w: World, m: Member)
    ensures Next(w, RedeemStep(m)) ==
      if Redeemable(w.booking, m) then w.(booking := w.booking.(hold := None, redemption := Some(w.booking.hold.value.value))) else w
  {
  }

  /** What an answer does: lost availability, a changed price and a rejected create give the points
      back; a confirmed create spends them if they can be spent; anything unsure leaves everything. */
  lemma ConclusionExactly(w: World)
    requires w.task.Answered?
    ensures var (b, w') := (w.booking, Next(w, FinishStep));
      && w'.task == NoTask && w'.creates == w.creates
      && w'.booking ==
         (if w.task.code in {AvailabilityLost, PriceChanged, CreateRejected} then b.(hold := None, frozen := None, started := false)
          else if w.task.code in {Confirmed, AlreadyConfirmed} && b.member.Some? && Redeemable(b, b.member.value)
          then b.(hold := None, redemption := Some(b.hold.value.value))
          else b)
  {
  }

  // ----- The booking as it is updated in place -----

  class Desk {
    var booking: Booking
    var task: Task
    ghost var creates: seq<Option<Code>>

    ghost function State(): World reads this { World(booking, task, creates) }

    /** Points are held or spent, and the mark stands exactly while a create may have succeeded. */
    ghost predicate Valid() reads this { Invariant(State()) }

    /** A booking nobody has paid for or held points on. */
    constructor (b: Booking)
      requires b.hold.None? && b.redemption.None? && b.frozen.None? && !b.started
      ensures Valid() && booking == b && creates == []
    {
      booking, task, creates := b, NoTask, [];
    }

    /** Holds points for a booking not yet paid; it had none, and no create of it may have succeeded. */
    method HoldPoints(value: int, m: Member, available: int) returns (ok: bool)
      requires Valid()
      modifies this`booking
      ensures Valid() && State() == Next(old(State()), HoldStep(value, m, available))
      ensures ok ==> Allocation(old(booking)).None? && Allocation(booking) == Some(value) && 0 < value <= available
      ensures ok ==> !Unresolved(State()) && booking.frozen.None?
      ensures !ok ==> booking == old(booking)
      ensures ok <==> Holdable(old(booking), m, value, available)
    {
      var b := booking;
      if b.member != Some(m) { return false; }
      if !(b.stay.Awaiting? || b.stay.Ready?) || b.hold.Some? || b.redemption.Some? { return false; }
      if Blocked(b) || value <= 0 || value > b.lodging || value > available { return false; }
      booking := b.(hold := Some(Hold(value, m)));
      return true;
    }

    /** The guest gives held points back: all of them, only when no create of the booking may
        have succeeded, and never points that were spent. */
    method Release() returns (value: Option<int>)
      requires Valid()
      modifies this`booking
      ensures Valid() && State() == Next(old(State()), ReleaseStep)
      ensures value.Some? ==> !Unresolved(State()) && booking.hold.None? && booking.frozen.None?
      ensures value.Some? && booking.redemption.None? ==> value.value == (match old(Allocation(booking)) case Some(n) => n case None => 0)
      ensures booking.redemption == old(booking).redemption
      ensures value.None? ==> booking == old(booking)
      ensures value.Some? <==> Releasable(old(booking))
    {
      if booking.started || (booking.frozen.Some? && Blocked(booking)) { return None; }
      value := Some(if booking.hold.Some? then booking.hold.value.value else 0);
      booking := booking.(hold := None);
      booking := booking.(frozen := None);
    }

    /** The timer gives back points of a request that expired unpaid, never those of a live
        stay, of a frozen split with a payment about, or of a create that may have succeeded. */
    method ReleaseExpired()
      requires Valid()
      modifies this`booking
      ensures Valid() && State() == Next(old(State()), ExpireStep)
      ensures booking != old(booking) ==>
        && booking.hold.None? && booking.frozen.None? && !Unresolved(State())
        && !booking.stay.Live? && booking.intentExpired && (old(booking).frozen.Some? ==> !Blocked(booking))
    {
      if booking.hold.None? || booking.stay.Live? || !booking.intentExpired { return; }
      var released := Release();
    }

    /** Spends the hold once: the points allocated stay the same, a repeated call answers the
        same value and changes nothing. */
    method Redeem(m: Member) returns (value: Option<int>)
      requires Valid()
      modifies this`booking
      ensures Valid() && State() == Next(old(State()), RedeemStep(m))
      ensures Allocation(booking) == old(Allocation(booking))
      ensures value.Some? ==> value == booking.redemption == old(Allocation(booking)) && booking.hold.None?
      ensures old(booking).redemption.Some? ==> booking == old(booking)
      ensures value.Some? <==> booking.member == Some(m) && (old(booking).redemption.Some? || Redeemable(old(booking), m))
    {
      if booking.member != Some(m) { return None; }
      if booking.redemption.Some? { return booking.redemption; }
      if !booking.stay.Live? || booking.hold.None? || booking.hold.value.member != m { return None; }
      var n := booking.hold.value.value;
      booking := booking.(hold := None);
      booking := booking.(redemption := Some(n));
      return Some(n);
    }

    /** The cash still due: with the points it makes up the price, and the split is frozen. */
    method CollectCash() returns (due: Option<int>)
      requires Valid()
      modifies this`booking
      ensures Valid() && State() == Next(old(State()), FreezeStep)
      ensures due == CashDue(booking) && Allocation(booking) == old(Allocation(booking))
      ensures due.Some? ==> match Allocation(booking)
        case None => due.value == booking.gross && booking == old(booking)
        case Some(points) => 0 <= due.value == booking.gross - points && booking.frozen == Some(Frozen(due.value, points))
      ensures due.None? ==> booking == old(booking)
      ensures due.None? <==> Allocation(old(booking)).Some? && !FitsBooking(old(booking), Allocation(old(booking)).value)
    {
      var b := booking;
      if b.hold.None? && b.redemption.None? { return Some(b.gross); }
      if b.member.None? || b.gross != b.lodging { return None; }
      if b.hold.Some? && b.hold.value.member != b.member.value { return None; }
      var points := if b.hold.Some? then b.hold.value.value else b.redemption.value;
      if b.gross < points { return None; }
      booking := b.(frozen := Some(Frozen(b.gross - points, points)));
      return Some(b.gross - points);
    }

    /** First transaction of a full-points confirmation: freeze, mark, then call out. A create
        is issued only when every earlier one certainly failed and the points pay for all. */
    method BeginConfirmation() returns (issue: bool)
      requires Valid()
      modifies this
      ensures Valid() && State() == Next(old(State()), StartStep)
      ensures issue ==> creates == old(creates) + [None] && forall j | 0 <= j < |old(creates)| :: Settled(creates[j])
      ensures issue ==> booking.frozen == Some(Frozen(0, booking.gross)) && booking.hold == old(booking).hold
      ensures !issue ==> creates == old(creates) && booking == old(booking)
      ensures issue <==> Confirmable(old(booking))
    {
      StartExactly(State());
      if booking.redemption.Some? || booking.started { return false; }
      if !booking.stay.Awaiting? || booking.hold.None? || CashDue(booking) != Some(0) || Blocked(booking) { return false; }
      StepKeeps(State(), StartStep);
      var due := CollectCash();
      booking := booking.(started := true);
      task, creates := Calling, creates + [None];
      return true;
    }

    /** The provider's answer to the create under way. */
    method Receive(code: Code)
      requires Valid() && task.Calling?
      modifies this`task, this`creates
      ensures Valid() && State() == Next(old(State()), AnswerStep(code))
      ensures |creates| == |old(creates)| && creates[|creates| - 1] == Some(code) && task == Answered(code)
      ensures Settled(creates[|creates| - 1]) <==> code in {AvailabilityLost, PriceChanged, CreateRejected}
    {
      StepKeeps(State(), AnswerStep(code));
      task, creates := Answered(code), creates[|creates| - 1 := Some(code)];
    }

    /** Second transaction: a definite failure gives the points back and allows a new try;
        anything else keeps them allocated to the booking, held or spent. */
    method Conclude()
      requires Valid() && task.Answered?
      modifies this
      ensures Valid() && State() == Next(old(State()), FinishStep)
      ensures task.NoTask? && creates == old(creates)
      ensures Definite(old(task).code) <==> old(task).code in {AvailabilityLost, PriceChanged, CreateRejected}
      ensures Definite(old(task).code) ==> booking.hold.None? && !Unresolved(State()) && booking.redemption == old(booking).redemption
      ensures !Definite(old(task).code) ==> Unresolved(State()) && Allocation(booking) == old(Allocation(booking))
      ensures booking.hold == old(booking).hold || Spends(old(State()), FinishStep) || Definite(old(task).code)
    {
      StepKeeps(State(), FinishStep);
      var code := task.code;
      task := NoTask;
      if code.Confirmed? || code.AlreadyConfirmed? {
        if booking.member.Some? {
          var spent := Redeem(booking.member.value);
        }
      } else if Definite(code) {
        booking := booking.(hold := None);
        booking := booking.(frozen := None);
        booking := booking.(started := false);
      }
    }
  }
}
