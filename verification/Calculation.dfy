/** Exact money arithmetic: points and prices are whole cents. */
module Calculation {
  import opened Wrappers
  import opened Decimals

  type Member = nat

  datatype MoneyError = Imprecise | NotANumber | OutOfForm | RefundTooLarge | NoZone | RepeatedNight

  /** What a caller may pass for an amount. */
  datatype Value = Flag | Float | Garbage | Infinite | Exact(amount: Decimal)

  function Cents(v: Value): Result<nat, MoneyError>
  {
    match v
    case Flag => Err(Imprecise)
    case Float => Err(Imprecise)
    case Garbage => Err(NotANumber)
    case Infinite => Err(OutOfForm)
    case Exact(d) =>
      match Read(d)
      case None => Err(OutOfForm)
      case Some(c) => Ok(c)
  }

  /** The decimal written for c cents, without trailing zeros behind the point. */
  function Amount(c: nat): Decimal
  {
    if c % 100 == 0 then Decimal(false, c / 100, 0)
    else if c % 10 == 0 then Decimal(false, c / 10, -1)
    else Decimal(false, c, -2)
  }

  /** When no digit is lost, a value is read as c cents exactly when it is c hundredths, in range. */
  lemma CentsReadsAmounts(v: Value, c: nat)
    requires v.Exact? ==> NothingLost(v.amount)
    ensures Cents(v) == Ok(c) <==> v.Exact? && IsCents(v.amount, c) && c < 10_000_000_000_000_000
  {
    if v.Exact? {
      ReadsAmounts(v.amount, c);
      SixteenZeros();
    }
  }

  /** Every amount in range reads back as its cents. */
  lemma AmountReadsBack(c: nat)
    requires c < 10_000_000_000_000_000
    ensures IsCents(Amount(c), c) && Cents(Exact(Amount(c))) == Ok(c)
  {
    AmountIsCents(c);
    AmountLosesNothing(c, Amount(c));
    CentsReadsAmounts(Exact(Amount(c)), c);
  }

  lemma AmountIsCents(c: nat)
    ensures IsCents(Amount(c), c)
  {
    ScaleByHundred(c);
  }

  lemma AmountLosesNothing(c: nat, d: Decimal)
    requires c < 10_000_000_000_000_000 && d.digits <= c && d.exponent >= TINY
    ensures NothingLost(d)
  {
    SixteenZeros();
    ScaleGrows(1, 16, 26);
    ShortDecimalsLoseNothing(d);
  }

  // ----- Division facts -----

  lemma DivMonotone(a: nat, b: nat, d: nat)
    requires a <= b && d > 0
    ensures a / d <= b / d
  {
    assert b == d * (b / d) + b % d && a == d * (a / d) + a % d;
    if a / d > b / d {
      MulMonotone(b / d + 1, a / d, d);
    }
  }

  lemma MulMonotone(a: int, b: int, c: nat)
    requires a <= b
    ensures a * c <= b * c
  {
  }

  /** The quotient is the only whole number q with q * d <= n < (q + 1) * d. */
  lemma Quotient(n: nat, d: nat, q: int)
    requires d > 0 && q * d <= n < q * d + d
    ensures n / d == q
  {
    assert n == d * (n / d) + n % d;
    if n / d > q { MulMonotone(q + 1, n / d, d); }
    if n / d < q { MulMonotone(n / d + 1, q, d); }
  }

  /** Rounding down several parts never gives more than rounding down their sum. */
  lemma FloorsAdd(a: nat, b: nat, d: nat)
    requires d > 0
    ensures a / d + b / d <= (a + b) / d
  {
    assert a == d * (a / d) + a % d && b == d * (b / d) + b % d;
    var q := a / d + b / d;
    assert d * q == d * (a / d) + d * (b / d);
    assert a + b == d * ((a + b) / d) + (a + b) % d;
    if (a + b) / d < q {
      MulMonotone((a + b) / d + 1, q, d);
    }
  }

  // ----- Rewards of one stay -----

  datatype Kind = Loyalty | DirectReferral | IndirectReferral

  datatype Reward = Reward(
    member: Member, kind: Kind, rate: nat, cents: nat, distance: nat, numerator: nat, denominator: nat)

  function Min(a: int, b: int): int { if a <= b then a else b }

  /** What the older inviters share: one percent each of at most seven, never above one percent a head. */
  function Pool(value: nat, count: nat): nat
  {
    Min(value * Min(count, 7) / 100, value / 100 * count)
  }

  /** The index-th of `count` whole parts of the pool. */
  function Share(pool: nat, count: nat, index: nat): nat
    requires count > 0
  {
    pool / count + (if index < pool % count then 1 else 0)
  }

  function OlderRewards(value: nat, older: seq<Member>): seq<Reward>
  {
    var count := |older|;
    seq(count, index requires 0 <= index < count =>
      Reward(older[index], IndirectReferral, 1, Share(Pool(value, count), count, index), index + 2, Min(count, 7), count))
  }

  /** The rewards of a stay worth this many cents. */
  function Plan(value: nat, owner: Member, ancestors: seq<Member>): seq<Reward>
  {
    var own := [Reward(owner, Loyalty, 3, value * 3 / 100, 0, 3, 1)];
    if ancestors == [] then own
    else
      var direct := [Reward(ancestors[0], DirectReferral, 5, value * 5 / 100, 1, 5, 1)];
      own + direct + OlderRewards(value, ancestors[1..])
  }

  function RewardPlan(base: Value, owner: Member, ancestors: seq<Member>): Result<seq<Reward>, MoneyError>
  {
    match Cents(base)
    case Err(e) => Err(e)
    case Ok(value) => Ok(Plan(value, owner, ancestors))
  }

  function Total(rewards: seq<Reward>): nat
  {
    if rewards == [] then 0 else Total(rewards[..|rewards| - 1]) + rewards[|rewards| - 1].cents
  }

  /** The first n shares of a pool split `count` ways. */
  function FirstShares(pool: nat, count: nat, n: nat): nat
    requires count > 0
  {
    if n == 0 then 0 else FirstShares(pool, count, n - 1) + Share(pool, count, n - 1)
  }

  lemma {:induction false} FirstSharesAdd(pool: nat, count: nat, n: nat)
    requires count > 0 && n <= count
    ensures FirstShares(pool, count, n) == n * (pool / count) + Min(n, pool % count)
  {
    if n > 0 {
      FirstSharesAdd(pool, count, n - 1);
      assert n * (pool / count) == (n - 1) * (pool / count) + pool / count;
    }
  }

  lemma {:induction false} TotalOfOlder(value: nat, older: seq<Member>, n: nat)
    requires n <= |older|
    ensures older != [] ==> Total(OlderRewards(value, older)[..n]) == FirstShares(Pool(value, |older|), |older|, n)
  {
    var rows := OlderRewards(value, older);
    if n > 0 {
      TotalOfOlder(value, older, n - 1);
      assert rows[..n][..n - 1] == rows[..n - 1];
    }
  }

  /** All shares of a pool together are the pool. */
  lemma SharesMakePool(pool: nat, count: nat)
    requires count > 0
    ensures FirstShares(pool, count, count) == pool
  {
    FirstSharesAdd(pool, count, count);
    assert pool == count * (pool / count) + pool % count;
  }

  /** The older inviters receive the whole pool, to the cent. */
  lemma OlderSharePoolExactly(value: nat, older: seq<Member>)
    requires older != []
    ensures Total(OlderRewards(value, older)) == Pool(value, |older|)
  {
    var rows := OlderRewards(value, older);
    TotalOfOlder(value, older, |older|);
    assert rows[..|older|] == rows;
    SharesMakePool(Pool(value, |older|), |older|);
  }

  /** No older inviter gets more than one percent, and no two differ by more than a cent. */
  lemma SharesAreEven(value: nat, count: nat, i: nat, j: nat)
    requires i < count && j < count
    ensures Share(Pool(value, count), count, i) <= value / 100
    ensures Share(Pool(value, count), count, i) <= Share(Pool(value, count), count, j) + 1
  {
    var pool, cap := Pool(value, count), value / 100;
    assert pool <= cap * count;
    DivMonotone(pool, cap * count, count);
    Quotient(cap * count, count, cap);
    if pool / count == cap {
      assert pool == count * (pool / count) + pool % count;
      assert count * cap == cap * count;
    }
  }

  /** One to seven older inviters each get exactly one percent, rounded down. */
  lemma SmallFamiliesGetOnePercent(value: nat, count: nat, i: nat)
    requires 1 <= count <= 7 && i < count
    ensures Share(Pool(value, count), count, i) == value / 100
  {
    var cap := value / 100;
    CapFits(value, count);
    assert Pool(value, count) == cap * count;
    Quotient(cap * count, count, cap);
    assert cap * count == count * cap;
    assert cap * count == count * (cap * count / count) + (cap * count) % count;
  }

  lemma CapFits(value: nat, count: nat)
    ensures value / 100 * count <= value * count / 100
  {
    var cap := value / 100;
    assert value == 100 * cap + value % 100;
    MulMonotone(100 * cap, value, count);
    assert 100 * cap * count == 100 * (cap * count);
    DivMonotone(100 * (cap * count), value * count, 100);
    Quotient(100 * (cap * count), 100, cap * count);
  }

  /** The rate, kind and fraction written on the k-th row of a plan with this many rows. */
  predicate Labelled(reward: Reward, k: nat, rows: nat)
    requires k < rows
  {
    if k == 0 then reward.kind.Loyalty? && reward.rate == 3 && reward.numerator == 3 && reward.denominator == 1
    else if k == 1 then reward.kind.DirectReferral? && reward.rate == 5 && reward.numerator == 5 && reward.denominator == 1
    else reward.kind.IndirectReferral? && reward.rate == 1 && reward.numerator == Min(rows - 2, 7) && reward.denominator == rows - 2
  }

  lemma PlanPaysOnce(value: nat, owner: Member, ancestors: seq<Member>, k: nat)
    requires k <= |ancestors|
    ensures var plan := Plan(value, owner, ancestors);
      && |plan| == |ancestors| + 1
      && plan[k].distance == k && plan[k].member == ([owner] + ancestors)[k] && Labelled(plan[k], k, |plan|)
      && 100 * plan[k].cents <= (if k == 0 then 3 else if k == 1 then 5 else 1) * value
      && (k < 2 ==> (if k == 0 then 3 else 5) * value < 100 * plan[k].cents + 100)
  {
    if k >= 2 {
      SharesAreEven(value, |ancestors| - 1, k - 2, k - 2);
    }
  }

  /** Owner and ancestors are each paid once, in order of distance; the owner and the direct
      inviter get three and five percent rounded down, the older ones at most one percent. */
  lemma EveryoneIsPaidOnce(base: Value, owner: Member, ancestors: seq<Member>, k: nat)
    requires Cents(base).Ok? && k <= |ancestors|
    ensures var (plan, value) := (RewardPlan(base, owner, ancestors).value, Cents(base).value);
      && |plan| == |ancestors| + 1
      && plan[k].distance == k && plan[k].member == ([owner] + ancestors)[k] && Labelled(plan[k], k, |plan|)
      && 100 * plan[k].cents <= (if k == 0 then 3 else if k == 1 then 5 else 1) * value
      && (k < 2 ==> (if k == 0 then 3 else 5) * value < 100 * plan[k].cents + 100)
  {
    PlanPaysOnce(Cents(base).value, owner, ancestors, k);
  }

  /** `total` is the most whole cents that are at most this percentage of the value and at most
      one percent, rounded down, for each head. */
  predicate LargestShare(total: nat, value: nat, percent: nat, heads: nat)
  {
    && 100 * total <= percent * value && total <= heads * (value / 100)
    && (percent * value < 100 * (total + 1) || heads * (value / 100) < total + 1)
  }

  lemma PoolIsLargest(value: nat, count: nat)
    ensures LargestShare(Pool(value, count), value, if count <= 7 then count else 7, count)
  {
    var n := value * Min(count, 7);
    assert n == 100 * (n / 100) + n % 100;
    assert value / 100 * count == count * (value / 100);
  }

  lemma SharesFollowOrder(value: nat, count: nat, i: nat, j: nat)
    requires i <= j < count
    ensures 0 <= Share(Pool(value, count), count, i) - Share(Pool(value, count), count, j) <= 1
  {
  }

  lemma OlderOfPlan(value: nat, owner: Member, ancestors: seq<Member>, i: nat, j: nat)
    requires 2 <= i <= j <= |ancestors|
    ensures var plan := Plan(value, owner, ancestors);
      && |plan| == |ancestors| + 1 && plan[2..] == OlderRewards(value, ancestors[1..])
      && 0 <= plan[i].cents - plan[j].cents <= 1
  {
    SharesFollowOrder(value, |ancestors| - 1, i - 2, j - 2);
  }

  lemma OlderTotal(value: nat, older: seq<Member>, rows: seq<Reward>, heads: nat)
    requires older != [] && rows == OlderRewards(value, older) && heads == |older|
    ensures LargestShare(Total(rows), value, if heads <= 7 then heads else 7, heads)
  {
    OlderSharePoolExactly(value, older);
    PoolIsLargest(value, heads);
  }

  /** The older inviters together get one percent for each of at most seven of them, as much of it
      as whole cents and one percent a head allow; nearer ones never get less, nor more than a
      cent more. */
  lemma OlderInvitersShare(base: Value, owner: Member, ancestors: seq<Member>, i: nat, j: nat)
    requires Cents(base).Ok? && 2 <= i <= j <= |ancestors|
    ensures var (plan, value, older) := (RewardPlan(base, owner, ancestors).value, Cents(base).value, |ancestors| - 1);
      && |plan| == |ancestors| + 1
      && LargestShare(Total(plan[2..]), value, if older <= 7 then older else 7, older)
      && 0 <= plan[i].cents - plan[j].cents <= 1
  {
    OlderOfPlan(Cents(base).value, owner, ancestors, i, j);
    OlderTotal(Cents(base).value, ancestors[1..], RewardPlan(base, owner, ancestors).value[2..], |ancestors| - 1);
  }

  lemma TotalOfPlan(value: nat, owner: Member, ancestors: seq<Member>)
    ensures Total(Plan(value, owner, ancestors))
      == value * 3 / 100 + if ancestors == [] then 0 else value * 5 / 100 + Pool(value, |ancestors| - 1)
  {
    var own := Reward(owner, Loyalty, 3, value * 3 / 100, 0, 3, 1);
    assert Total([own]) == value * 3 / 100 by { assert [own][..0] == []; }
    if ancestors != [] {
      var direct := Reward(ancestors[0], DirectReferral, 5, value * 5 / 100, 1, 5, 1);
      TotalOfTwo([own, direct], OlderRewards(value, ancestors[1..]));
      assert [own] + [direct] == [own, direct] && [own, direct][..1] == [own];
      if ancestors[1..] != [] {
        OlderSharePoolExactly(value, ancestors[1..]);
      } else {
        assert OlderRewards(value, ancestors[1..]) == [];
      }
    }
  }

  /** A stay pays out exactly three percent, five percent and the pool, each rounded down once. */
  lemma PlanTotal(base: Value, owner: Member, ancestors: seq<Member>)
    requires Cents(base).Ok?
    ensures var value := Cents(base).value;
      Total(RewardPlan(base, owner, ancestors).value)
      == value * 3 / 100 + if ancestors == [] then 0 else value * 5 / 100 + Pool(value, |ancestors| - 1)
  {
    TotalOfPlan(Cents(base).value, owner, ancestors);
  }

  /** All rewards of a stay together stay within fifteen percent, rounded down. */
  lemma RewardsStayWithinFifteenPercent(base: Value, owner: Member, ancestors: seq<Member>)
    requires Cents(base).Ok?
    ensures Total(RewardPlan(base, owner, ancestors).value) <= 15 * Cents(base).value / 100
  {
    var value := Cents(base).value;
    PlanTotal(base, owner, ancestors);
    FloorsAdd(value * 3, value * 12, 100);
    FloorsAdd(value * 5, value * 7, 100);
    if ancestors != [] {
      MulMonotone(Min(|ancestors| - 1, 7), 7, value);
      DivMonotone(value * Min(|ancestors| - 1, 7), value * 7, 100);
    }
  }

  lemma {:induction false} TotalOfTwo(a: seq<Reward>, b: seq<Reward>)
    ensures Total(a + b) == Total(a) + Total(b)
    decreases |b|
  {
    if b == [] {
      assert a + b == a;
    } else {
      TotalOfTwo(a, b[..|b| - 1]);
      assert (a + b)[..|a + b| - 1] == a + b[..|b| - 1];
    }
  }

  /** The pool never shrinks when the value or the number of older inviters grows. */
  lemma PoolMonotone(value: nat, value': nat, count: nat, count': nat)
    requires value <= value' && count <= count'
    ensures Pool(value, count) <= Pool(value', count')
  {
    DivMonotone(value, value', 100);
    MulMonotone(value / 100, value' / 100, count);
    MulMonotone(count, count', value' / 100);
    assert value / 100 * count <= value' / 100 * count';
    MulMonotone(value, value', Min(count, 7));
    MulMonotone(Min(count, 7), Min(count', 7), value');
    DivMonotone(value * Min(count, 7), value' * Min(count', 7), 100);
  }

  lemma PlanMonotone(v: nat, v': nat, owner: Member, ancestors: seq<Member>, row: nat)
    requires v <= v' && row <= |ancestors|
    ensures |Plan(v, owner, ancestors)| == |Plan(v', owner, ancestors)| == |ancestors| + 1
    ensures Plan(v, owner, ancestors)[row].member == Plan(v', owner, ancestors)[row].member
    ensures Plan(v, owner, ancestors)[row].cents <= Plan(v', owner, ancestors)[row].cents
  {
    DivMonotone(v * 3, v' * 3, 100);
    DivMonotone(v * 5, v' * 5, 100);
    if row >= 2 {
      var count := |ancestors| - 1;
      PoolMonotone(v, v', count, count);
      ShareMonotone(Pool(v, count), Pool(v', count), count, row - 2);
    }
  }

  /** A richer stay never lowers any beneficiary's reward. */
  lemma RewardsMonotone(base: Value, base': Value, owner: Member, ancestors: seq<Member>, row: nat)
    requires Cents(base).Ok? && Cents(base').Ok? && Cents(base).value <= Cents(base').value
    requires row < |RewardPlan(base, owner, ancestors).value|
    ensures |RewardPlan(base', owner, ancestors).value| == |RewardPlan(base, owner, ancestors).value|
    ensures RewardPlan(base, owner, ancestors).value[row].member == RewardPlan(base', owner, ancestors).value[row].member
    ensures RewardPlan(base, owner, ancestors).value[row].cents <= RewardPlan(base', owner, ancestors).value[row].cents
  {
    PlanLength(Cents(base).value, owner, ancestors);
    PlanMonotone(Cents(base).value, Cents(base').value, owner, ancestors, row);
  }

  lemma PlanLength(value: nat, owner: Member, ancestors: seq<Member>)
    ensures |Plan(value, owner, ancestors)| == |ancestors| + 1
  {
  }

  lemma ShareMonotone(pool: nat, pool': nat, count: nat, index: nat)
    requires pool <= pool' && index < count
    ensures Share(pool, count, index) <= Share(pool', count, index)
  {
    DivMonotone(pool, pool', count);
    assert pool == count * (pool / count) + pool % count;
    assert pool' == count * (pool' / count) + pool' % count;
  }

  // ----- Splitting a refund between cash and points -----

  datatype Split = Split(cash: nat, points: nat)

  function CashPart(r: nat, c: nat, p: nat): nat
  {
    if c + p == 0 then 0 else r * c / (c + p)
  }

  function RefundSplit(refundable: Value, cash: Value, points: Value): Result<Split, MoneyError>
  {
    match Cents(refundable)
    case Err(e) => Err(e)
    case Ok(r) =>
      match Cents(cash)
      case Err(e) => Err(e)
      case Ok(c) =>
        match Cents(points)
        case Err(e) => Err(e)
        case Ok(p) =>
          if r > c + p then Err(RefundTooLarge)
          else
            CashPartFits(r, c, p);
            Ok(Split(CashPart(r, c, p), r - CashPart(r, c, p)))
  }

  lemma CashPartFits(r: nat, c: nat, p: nat)
    requires r <= c + p
    ensures CashPart(r, c, p) <= c && CashPart(r, c, p) <= r
    ensures r - CashPart(r, c, p) <= p
  {
    if c + p > 0 {
      Proportion(r, c, c + p);
      Proportion(c, r, c + p);
      assert r * c == c * r;
      if r > p {
        assert (r - p) * (c + p) == r * c - p * (c + p - r);
        MulMonotone(0, p, c + p - r);
        assert p * (c + p - r) >= 0;
        DivMonotone((r - p) * (c + p), r * c, c + p);
        Quotient((r - p) * (c + p), c + p, r - p);
      }
    }
  }

  /** A part r of d keeps at most the whole of c. */
  lemma Proportion(r: nat, c: nat, d: nat)
    requires r <= d && d > 0
    ensures r * c / d <= c
  {
  }

  /** A refund is split without loss, never beyond what was paid in either form, and a
      full refund returns exactly both payments. Only an excessive refund is refused. */
  lemma RefundConserved(refundable: Value, cash: Value, points: Value)
    requires Cents(refundable).Ok? && Cents(cash).Ok? && Cents(points).Ok?
    ensures var (r, c, p) := (Cents(refundable).value, Cents(cash).value, Cents(points).value);
      match RefundSplit(refundable, cash, points)
      case Ok(split) =>
        && r <= c + p
        && split.cash + split.points == r
        && split.cash <= c && split.points <= p
        && (r == c + p ==> split == Split(c, p))
      case Err(e) => e == RefundTooLarge && r > c + p
  {
    var (r, c, p) := (Cents(refundable).value, Cents(cash).value, Cents(points).value);
    if r <= c + p {
      CashPartFits(r, c, p);
    }
  }

  /** `part` is the share c of d in r, rounded down; without anything to share it is nothing. */
  predicate Proportional(part: nat, r: nat, c: nat, d: nat)
  {
    if d > 0 then part * d <= r * c < (part + 1) * d else part == 0
  }

  lemma PartIsProportional(r: nat, c: nat, p: nat)
    ensures Proportional(CashPart(r, c, p), r, c, c + p)
  {
    var n, d := r * c, c + p;
    if d > 0 {
      assert n == d * (n / d) + n % d;
    }
  }

  /** The cash of a split is the refund's share of the cash paid, rounded down; without any
      payment nothing is given back. */
  lemma RefundIsProportional(refundable: Value, cash: Value, points: Value)
    requires Cents(refundable).Ok? && Cents(cash).Ok? && Cents(points).Ok? && RefundSplit(refundable, cash, points).Ok?
    ensures var (r, c, p, split) := (Cents(refundable).value, Cents(cash).value, Cents(points).value, RefundSplit(refundable, cash, points).value);
      Proportional(split.cash, r, c, c + p) && split.points == r - split.cash
  {
    PartIsProportional(Cents(refundable).value, Cents(cash).value, Cents(points).value);
  }

  /** The quotient grows by m when m divisors are added. */
  lemma DivPlus(x: nat, m: nat, d: nat)
    requires d > 0
    ensures (x + m * d) / d == x / d + m
  {
    var q := x / d;
    assert x == d * q + x % d;
    assert (q + m) * d == q * d + m * d && q * d == d * q;
    Quotient(x + m * d, d, q + m);
  }

  /** Taking `more` further parts of c adds at most `more`. */
  lemma PartGrowsSlowly(r: nat, more: nat, c: nat, d: nat)
    requires c <= d && d > 0
    ensures (r + more) * c / d <= r * c / d + more
  {
    MulMonotone(c, d, more);
    assert (r + more) * c == r * c + c * more;
    assert d * more == more * d;
    DivMonotone(r * c + c * more, r * c + more * d, d);
    DivPlus(r * c, more, d);
  }

  lemma PartMonotone(r: nat, r': nat, c: nat, p: nat)
    requires r <= r' <= c + p
    ensures CashPart(r, c, p) <= CashPart(r', c, p)
    ensures r - CashPart(r, c, p) <= r' - CashPart(r', c, p)
  {
    if c + p > 0 {
      MulMonotone(r, r', c);
      DivMonotone(r * c, r' * c, c + p);
      PartGrowsSlowly(r, r' - r, c, c + p);
    }
  }

  /** Refunding more of the same payment never returns less in either form. */
  lemma RefundMonotone(less: Value, more: Value, cash: Value, points: Value)
    requires RefundSplit(less, cash, points).Ok? && RefundSplit(more, cash, points).Ok?
    requires Cents(less).value <= Cents(more).value
    ensures var (a, b) := (RefundSplit(less, cash, points).value, RefundSplit(more, cash, points).value);
      a.cash <= b.cash && a.points <= b.points
  {
    PartMonotone(Cents(less).value, Cents(more).value, Cents(cash).value, Cents(points).value);
  }

  // ----- Refund on departure -----

  datatype Night = Night(date: int, value: Value)

  /** The local wall clock when the guest left. */
  datatype Moment = Moment(date: int, hour: nat)

  ghost predicate NotLater(a: Moment, b: Moment) { a.date < b.date || (a.date == b.date && a.hour <= b.hour) }

  predicate Unused(date: int, left: Moment, arrived: bool)
  {
    !arrived || date > left.date || (date == left.date && left.hour < 20)
  }

  /** The value of the unused nights among the first n. */
  ghost function UnusedValue(nights: seq<Night>, left: Moment, arrived: bool): nat
    requires forall k | 0 <= k < |nights| :: Cents(nights[k].value).Ok?
  {
    if nights == [] then 0
    else
      var last := nights[|nights| - 1];
      UnusedValue(nights[..|nights| - 1], left, arrived)
      + (if Unused(last.date, left, arrived) then Cents(last.value).value else 0)
  }

  ghost predicate Acceptable(nights: seq<Night>)
  {
    && (forall k | 0 <= k < |nights| :: Cents(nights[k].value).Ok?)
    && (forall j, k | 0 <= j < k < |nights| :: nights[j].date != nights[k].date)
  }

  predicate NewDate(nights: seq<Night>, k: nat)
    requires k < |nights|
  {
    forall j | 0 <= j < k :: nights[j].date != nights[k].date
  }

  lemma NightAccepted(nights: seq<Night>, k: nat)
    requires k < |nights| && Acceptable(nights[..k]) && Cents(nights[k].value).Ok? && NewDate(nights, k)
    ensures Acceptable(nights[..k + 1])
  {
    var more := nights[..k + 1];
    assert forall j | 0 <= j < k :: more[j] == nights[..k][j];
    assert more[k] == nights[k];
  }

  lemma NightCounted(nights: seq<Night>, left: Moment, arrived: bool)
    requires nights != [] && forall j | 0 <= j < |nights| :: Cents(nights[j].value).Ok?
    ensures var (before, last) := (nights[..|nights| - 1], nights[|nights| - 1]);
      UnusedValue(nights, left, arrived)
      == UnusedValue(before, left, arrived) + if Unused(last.date, left, arrived) then Cents(last.value).value else 0
  {
  }

  lemma OneNightMore(nights: seq<Night>, k: nat, left: Moment, arrived: bool)
    requires k < |nights| && Acceptable(nights[..k]) && Cents(nights[k].value).Ok? && NewDate(nights, k)
    ensures Acceptable(nights[..k + 1])
    ensures UnusedValue(nights[..k + 1], left, arrived)
      == UnusedValue(nights[..k], left, arrived) + if Unused(nights[k].date, left, arrived) then Cents(nights[k].value).value else 0
  {
    NightAccepted(nights, k);
    NightCounted(nights[..k + 1], left, arrived);
    assert nights[..k + 1][..k] == nights[..k];
  }

  lemma BadNight(nights: seq<Night>, k: nat)
    requires k < |nights| && (Cents(nights[k].value).Err? || !NewDate(nights, k))
    ensures !Acceptable(nights)
  {
  }

  /** Refunds the nights not used, or refuses a list with a repeated night or a bad value. */
  method DepartureRefund(nights: seq<Night>, zoned: bool, left: Moment, arrived: bool) returns (r: Result<nat, MoneyError>)
    ensures r.Ok? <==> zoned && Acceptable(nights)
    ensures r.Ok? ==> r.value == UnusedValue(nights, left, arrived)
    ensures !zoned ==> r == Err(NoZone)
  {
    if !zoned { return Err(NoZone); }
    var dates: set<int>, total, k := {}, 0, 0;
    while k < |nights|
      invariant 0 <= k <= |nights| && Acceptable(nights[..k])
      invariant dates == set j | 0 <= j < k :: nights[j].date
      invariant total == UnusedValue(nights[..k], left, arrived)
    {
      var night := nights[k];
      if night.date in dates {
        BadNight(nights, k);
        return Err(RepeatedNight);
      }
      dates := dates + {night.date};
      var value := Cents(night.value);
      if value.Err? {
        BadNight(nights, k);
        return Err(value.error);
      }
      OneNightMore(nights, k, left, arrived);
      if Unused(night.date, left, arrived) {
        total := total + value.value;
      }
      k := k + 1;
    }
    assert nights[..k] == nights;
    return Ok(total);
  }

  /** Leaving later never increases the refund, which never exceeds the price of all nights. */
  lemma {:induction false} LaterDepartureRefundsLess(nights: seq<Night>, a: Moment, b: Moment)
    requires Acceptable(nights) && NotLater(a, b)
    ensures UnusedValue(nights, b, true) <= UnusedValue(nights, a, true) <= UnusedValue(nights, a, false)
    ensures UnusedValue(nights, a, false) == UnusedValue(nights, b, false)
  {
    if nights != [] {
      LaterDepartureRefundsLess(nights[..|nights| - 1], a, b);
    }
  }

  /** The value of the nights of one date. */
  ghost function ValueOn(nights: seq<Night>, date: int): nat
    requires forall k | 0 <= k < |nights| :: Cents(nights[k].value).Ok?
  {
    if nights == [] then 0
    else
      var last := nights[|nights| - 1];
      ValueOn(nights[..|nights| - 1], date) + (if last.date == date then Cents(last.value).value else 0)
  }

  /** The night of a date is refunded until eight in the evening of that date and not afterwards;
      between one evening and the next the refund does not change. */
  lemma {:induction false} NightsEndAtEight(nights: seq<Night>, date: int, a: nat, b: nat)
    requires forall k | 0 <= k < |nights| :: Cents(nights[k].value).Ok?
    requires a < 20 <= b
    ensures UnusedValue(nights, Moment(date, a), true) == UnusedValue(nights, Moment(date, b), true) + ValueOn(nights, date)
    ensures UnusedValue(nights, Moment(date, b), true) == UnusedValue(nights, Moment(date + 1, a), true)
  {
    if nights != [] {
      NightsEndAtEight(nights[..|nights| - 1], date, a, b);
    }
  }

  /** Before the first night's evening, or without an arrival, everything is refunded; after the
      last one nothing is. */
  lemma {:induction false} AllOrNothing(nights: seq<Night>, left: Moment)
    requires forall k | 0 <= k < |nights| :: Cents(nights[k].value).Ok?
    ensures (forall k | 0 <= k < |nights| :: left.date < nights[k].date) ==>
      UnusedValue(nights, left, true) == UnusedValue(nights, left, false)
    ensures (forall k | 0 <= k < |nights| :: nights[k].date < left.date) ==> UnusedValue(nights, left, true) == 0
  {
    if nights != [] {
      var before, last := nights[..|nights| - 1], nights[|nights| - 1];
      AllOrNothing(before, left);
      assert nights[|nights| - 1] == last && forall k | 0 <= k < |before| :: before[k] == nights[k];
    }
  }
}
