/** Reading decimals as cents the way decimal arithmetic does it: products keep 28 digits, none
    of them below the smallest exponent. */
module Decimals {
  import opened Wrappers

  /** A finite decimal: its digits, shifted by the exponent. */
  datatype Decimal = Decimal(negative: bool, digits: nat, exponent: int)

  /** The smallest exponent a product can have. */
  const TINY := -1_000_026

  function Max(a: int, b: int): int { if a >= b then a else b }

  /** q with n zeros appended. */
  function Scale(q: nat, n: nat): (r: nat)
    ensures r >= q
  {
    if n == 0 then q else 10 * Scale(q, n - 1)
  }

  /** p without its last n digits. */
  function Cut(p: nat, n: nat): nat
  {
    if n == 0 then p else Cut(p / 10, n - 1)
  }

  /** p divided by ten to the n, if that is a whole number. */
  function Unscale(p: nat, n: nat): Option<nat>
  {
    if n == 0 then Some(p) else if p % 10 == 0 then Unscale(p / 10, n - 1) else None
  }

  /** How many last digits a product loses to the 28 digits decimal arithmetic keeps. */
  function Excess(p: nat): nat
  {
    if p < Scale(1, 28) then 0 else 1 + Excess(p / 10)
  }

  /** p without its last n digits, rounded to the nearest, halves to the even one. */
  function HalfEven(p: nat, n: nat): nat
  {
    var q := Cut(p, n);
    var rest := p - Scale(q, n);
    if 2 * rest > Scale(1, n) || (2 * rest == Scale(1, n) && q % 2 == 1) then q + 1 else q
  }

  /** q times ten to the x, if that is a whole number. */
  function Whole(q: nat, x: int): Option<nat>
  {
    if x >= 0 then Some(Scale(q, x)) else Unscale(q, -x)
  }

  predicate TooLarge(digits: nat, exponent: int)
  {
    if exponent >= 0 then Scale(digits, exponent) >= Scale(1, 14) else digits >= Scale(1, 14 - exponent)
  }

  /** How many last digits a product with this exponent loses. */
  function Lost(p: nat, exponent: int): nat { Max(Excess(p), TINY - exponent) }

  /** How a decimal is read as cents: a hundred times the amount, in decimal arithmetic, must
      be whole. */
  function Read(d: Decimal): Option<nat>
  {
    if (d.negative && d.digits > 0) || TooLarge(d.digits, d.exponent) then None
    else ReadProduct(100 * d.digits, d.exponent)
  }

  /** A product loses digits and must then be whole. */
  function ReadProduct(p: nat, exponent: int): Option<nat>
  {
    Whole(HalfEven(p, Lost(p, exponent)), exponent + Lost(p, exponent))
  }

  /** The decimal is exactly k hundredths. */
  predicate IsCents(d: Decimal, k: nat)
  {
    (!d.negative || d.digits == 0) && IsProduct(100 * d.digits, d.exponent, k)
  }

  predicate IsProduct(p: nat, exponent: int, k: nat)
  {
    if exponent >= 0 then Scale(p, exponent) == k else p == Scale(k, -exponent)
  }

  /** Multiplying by a hundred loses no digit other than zeros. */
  predicate NothingLost(d: Decimal) { Kept(100 * d.digits, Lost(100 * d.digits, d.exponent)) }

  predicate Kept(p: nat, lost: nat) { p == Scale(Cut(p, lost), lost) }

  lemma {:induction false} ScaleTwice(q: nat, a: nat, b: nat)
    ensures Scale(Scale(q, a), b) == Scale(q, a + b)
  {
    if b > 0 {
      ScaleTwice(q, a, b - 1);
    }
  }

  lemma {:induction false} ScaleKeepsOrder(p: nat, q: nat, n: nat)
    ensures p < q <==> Scale(p, n) < Scale(q, n)
    ensures p == q <==> Scale(p, n) == Scale(q, n)
  {
    if n > 0 {
      ScaleKeepsOrder(p, q, n - 1);
    }
  }

  lemma {:induction false} ScaleAdds(p: nat, q: nat, n: nat)
    ensures Scale(p + q, n) == Scale(p, n) + Scale(q, n)
  {
    if n > 0 {
      ScaleAdds(p, q, n - 1);
    }
  }

  lemma {:induction false} ScaleGrows(q: nat, a: nat, b: nat)
    requires a <= b
    ensures Scale(q, a) <= Scale(q, b)
    ensures q > 0 && a < b ==> Scale(q, a) < Scale(q, b)
  {
    if a < b {
      ScaleGrows(q, a, b - 1);
    }
  }

  lemma {:induction false} CutFits(p: nat, n: nat)
    ensures Scale(Cut(p, n), n) <= p < Scale(Cut(p, n), n) + Scale(1, n)
  {
    if n > 0 {
      CutFits(p / 10, n - 1);
    }
  }

  lemma {:induction false} UnscaleMeans(p: nat, n: nat, k: nat)
    ensures Unscale(p, n) == Some(k) <==> p == Scale(k, n)
  {
    if n > 0 {
      UnscaleMeans(p / 10, n - 1, k);
    }
  }

  lemma {:induction false} ExcessFits(p: nat)
    ensures p < Scale(1, Excess(p) + 28)
    ensures Excess(p) > 0 ==> Scale(1, Excess(p) + 27) <= p
  {
    if p >= Scale(1, 28) {
      ExcessFits(p / 10);
    }
  }

  lemma HalfEvenIsNear(p: nat, n: nat)
    ensures -(Scale(1, n) as int) <= 2 * (Scale(HalfEven(p, n), n) - p) <= Scale(1, n)
    ensures Scale(HalfEven(p, n), n) == p <==> p == Scale(Cut(p, n), n)
  {
    CutFits(p, n);
    ScaleAdds(Cut(p, n), 1, n);
  }

  /** What is read, on the scale of the decimal's own digits. */
  lemma ReadOnScale(exponent: int, q: nat, lost: nat, k: nat)
    ensures Whole(q, exponent + lost) == Some(k) <==>
      if exponent >= 0 then k == Scale(Scale(q, lost), exponent) else Scale(k, -exponent) == Scale(q, lost)
  {
    var x := exponent + lost;
    if exponent >= 0 {
      ScaleTwice(q, lost, exponent);
    } else if x >= 0 {
      ScaleTwice(q, x, -exponent);
      ScaleKeepsOrder(k, Scale(q, x), -exponent);
    } else {
      UnscaleMeans(q, -x, k);
      ScaleTwice(k, -x, lost);
      ScaleKeepsOrder(q, Scale(k, -x), lost);
    }
  }

  /** Rounding a product p to q and reading it is exact exactly when the rounding is. */
  lemma ReadingIsExact(p: nat, exponent: int, q: nat, lost: nat, k: nat)
    ensures Scale(q, lost) == p ==> (Whole(q, exponent + lost) == Some(k) <==> IsProduct(p, exponent, k))
    ensures Whole(q, exponent + lost) == Some(k) ==> (IsProduct(p, exponent, k) <==> Scale(q, lost) == p)
  {
    ReadOnScale(exponent, q, lost, k);
    if exponent >= 0 {
      ScaleKeepsOrder(p, Scale(q, lost), exponent);
    }
  }

  /** Reading a product is exact exactly when it keeps all its digits. */
  lemma ProductIsExact(p: nat, exponent: int, k: nat)
    ensures Kept(p, Lost(p, exponent)) ==> (ReadProduct(p, exponent) == Some(k) <==> IsProduct(p, exponent, k))
    ensures ReadProduct(p, exponent) == Some(k) ==> (IsProduct(p, exponent, k) <==> Kept(p, Lost(p, exponent)))
  {
    var lost := Lost(p, exponent);
    HalfEvenIsNear(p, lost);
    ReadingIsExact(p, exponent, HalfEven(p, lost), lost, k);
  }

  lemma ScaleByHundred(k: nat)
    ensures Scale(k, 2) == 100 * k
  {
    assert Scale(k, 1) == 10 * Scale(k, 0);
  }

  lemma ScaleByTenThousand(k: nat)
    ensures Scale(k, 4) == 10_000 * k
  {
    ScaleByHundred(k);
    ScaleByHundred(100 * k);
    ScaleTwice(k, 2, 2);
  }

  lemma SixteenZeros()
    ensures Scale(1, 16) == 10_000_000_000_000_000
  {
    ScaleByTenThousand(1);
    ScaleTwice(1, 4, 4);
    ScaleByTenThousand(10_000);
    ScaleTwice(1, 8, 4);
    ScaleByTenThousand(100_000_000);
    ScaleTwice(1, 12, 4);
    ScaleByTenThousand(1_000_000_000_000);
  }

  lemma ScaleSwaps(q: nat, a: nat, b: nat)
    ensures Scale(Scale(q, a), b) == Scale(Scale(q, b), a)
  {
    ScaleTwice(q, a, b);
    ScaleTwice(q, b, a);
  }

  /** Moving two places keeps the order. */
  lemma HundredKeepsOrder(p: nat, a: nat, b: nat)
    requires b == a + 2
    ensures p >= Scale(1, a) <==> 100 * p >= Scale(1, b)
  {
    ScaleTwice(1, a, 2);
    ScaleByHundred(p);
    ScaleKeepsOrder(p, Scale(1, a), 2);
  }

  lemma LimitOfWhole(digits: nat, exponent: nat, limit: nat)
    ensures Scale(digits, exponent) >= Scale(1, limit) <==> Scale(100 * digits, exponent) >= Scale(1, limit + 2)
  {
    HundredKeepsOrder(Scale(digits, exponent), limit, limit + 2);
    ScaleByHundred(digits);
    ScaleByHundred(Scale(digits, exponent));
    ScaleSwaps(digits, 2, exponent);
  }

  lemma LimitOfPlaces(digits: nat, places: nat, limit: nat, k: nat)
    requires 100 * digits == Scale(k, places)
    ensures digits >= Scale(1, limit + places) <==> k >= Scale(1, limit + 2)
  {
    HundredKeepsOrder(digits, limit + places, limit + places + 2);
    ScaleTwice(1, limit + 2, places);
    ScaleKeepsOrder(k, Scale(1, limit + 2), places);
  }

  /** k hundredths are within the limit exactly when k is below ten to the sixteen. */
  lemma LimitInCents(d: Decimal, k: nat)
    requires IsCents(d, k)
    ensures TooLarge(d.digits, d.exponent) <==> k >= Scale(1, 16)
  {
    if d.exponent >= 0 {
      LimitOfWhole(d.digits, d.exponent, 14);
    } else {
      LimitOfPlaces(d.digits, -d.exponent, 14, k);
    }
  }

  /** When no digit is lost, a decimal is read as k cents exactly when it is k cents and below
      the limit. */
  lemma ReadsAmounts(d: Decimal, k: nat)
    requires NothingLost(d)
    ensures Read(d) == Some(k) <==> IsCents(d, k) && k < Scale(1, 16)
  {
    ProductIsExact(100 * d.digits, d.exponent, k);
    if IsCents(d, k) {
      LimitInCents(d, k);
    }
  }

  /** In general an accepted decimal is exactly the cents it is read as if and only if no digit is lost. */
  lemma AcceptedIsExact(d: Decimal, k: nat)
    requires Read(d) == Some(k)
    ensures IsCents(d, k) <==> NothingLost(d)
  {
    ProductIsExact(100 * d.digits, d.exponent, k);
  }

  /** Digits are lost only beyond the twenty-sixth, or below the smallest exponent. */
  lemma ShortDecimalsLoseNothing(d: Decimal)
    requires d.digits < Scale(1, 26) && d.exponent >= TINY
    ensures NothingLost(d)
  {
    ScaleTwice(1, 26, 2);
    assert Scale(Scale(1, 26), 2) == 100 * Scale(1, 26);
  }

  /** A decimal that loses digits is still read within half a millionth of a millionth of a cent. */
  lemma AcceptedIsNear(d: Decimal, k: nat)
    requires Read(d) == Some(k) && !IsCents(d, k)
    ensures d.exponent < 0 && NearlyProduct(100 * d.digits, d.exponent, k)
  {
    SmallProduct(d.digits, d.exponent);
    SmallProductIsNear(100 * d.digits, d.exponent, k);
  }

  ghost predicate NearlyProduct(p: nat, exponent: int, k: nat)
    requires exponent < 0
  {
    Scale(2 * Gap(p, Scale(k, -exponent)), 12) <= Scale(1, -exponent)
  }

  predicate Small(p: nat, exponent: int) { p < Scale(1, if exponent >= 0 then 16 else 16 - exponent) }

  lemma SmallProduct(digits: nat, exponent: int)
    requires !TooLarge(digits, exponent)
    ensures Small(100 * digits, exponent)
  {
    var n := if exponent >= 0 then 14 else 14 - exponent;
    ScaleTwice(1, n, 2);
    ScaleByHundred(Scale(1, n));
    if exponent >= 0 { assert digits <= Scale(digits, exponent); }
  }

  lemma SmallProductIsNear(p: nat, exponent: int, k: nat)
    requires Small(p, exponent) && ReadProduct(p, exponent) == Some(k) && !IsProduct(p, exponent, k)
    ensures exponent < 0 && NearlyProduct(p, exponent, k)
  {
    ProductLoses(p, exponent, k);
    LossIsFarDown(p, exponent, Lost(p, exponent));
    ProductIsNear(p, exponent, k);
    NearOnScale(p, Scale(k, -exponent), Lost(p, exponent), -exponent);
  }

  lemma ProductLoses(p: nat, exponent: int, k: nat)
    requires ReadProduct(p, exponent) == Some(k) && !IsProduct(p, exponent, k)
    ensures Lost(p, exponent) > 0 && (exponent < TINY || Scale(1, Lost(p, exponent) + 27) <= p)
  {
    ProductIsExact(p, exponent, k);
    ExcessFits(p);
  }

  lemma ProductIsNear(p: nat, exponent: int, k: nat)
    requires ReadProduct(p, exponent) == Some(k) && exponent < 0
    ensures 2 * Gap(p, Scale(k, -exponent)) <= Scale(1, Lost(p, exponent))
  {
    var lost := Lost(p, exponent);
    HalfEvenIsNear(p, lost);
    ReadOnScale(exponent, HalfEven(p, lost), lost, k);
  }

  lemma NearOnScale(p: nat, r: nat, lost: nat, places: nat)
    requires 2 * Gap(p, r) <= Scale(1, lost) && lost + 12 <= places
    ensures Scale(2 * Gap(p, r), 12) <= Scale(1, places)
  {
    ScaleKeepsOrder(Scale(1, lost), 2 * Gap(p, r), 12);
    ScaleTwice(1, lost, 12);
    ScaleGrows(1, lost + 12, places);
  }

  function Gap(a: nat, b: nat): nat { if a <= b then b - a else a - b }

  /** Within the limit, digits are lost only far behind the point. */
  lemma LossIsFarDown(p: nat, exponent: int, lost: nat)
    requires Small(p, exponent) && lost == Lost(p, exponent) > 0
    ensures exponent < 0 && lost + 12 <= -exponent
  {
    var n := if exponent >= 0 then 16 else 16 - exponent;
    ExcessFits(p);
    if lost == Excess(p) && lost + 27 >= n {
      ScaleGrows(1, n, lost + 27);
    }
  }

  // ----- Below the smallest exponent -----

  lemma LittleIsNoTen(q: nat, n: nat, k: nat)
    requires q < Scale(1, n)
    ensures Unscale(q, n) == Some(k) <==> k == 0 && q == 0
  {
    UnscaleMeans(q, n, k);
    if k > 0 {
      ScaleKeepsOrder(1, k, n);
    }
    ScaleKeepsOrder(0, k, n);
    ZeroStays(n);
  }

  lemma {:induction false} ZeroStays(n: nat)
    ensures Scale(0, n) == 0
  {
    if n > 0 {
      ZeroStays(n - 1);
    }
  }

  lemma CutIsShort(p: nat, n: nat, places: nat)
    requires p < Scale(1, n + places)
    ensures Cut(p, n) < Scale(1, places)
  {
    CutFits(p, n);
    ScaleTwice(1, places, n);
    ScaleKeepsOrder(Cut(p, n), Scale(1, places), n);
  }

  /** Rounding away more than half of a unit leaves nothing, and never more than 28 digits. */
  lemma RoundedAway(p: nat, n: nat)
    requires p < Scale(1, n + 28)
    ensures HalfEven(p, n) <= Scale(1, 28)
    ensures HalfEven(p, n) == 0 <==> 2 * p <= Scale(1, n)
  {
    CutIsShort(p, n, 28);
    ZeroStays(n);
    if Cut(p, n) > 0 {
      CutFits(p, n);
      ScaleKeepsOrder(1, Cut(p, n), n);
    }
  }

  lemma UnderflowIsShort(p: nat, lost: nat, places: nat)
    requires Excess(p) <= lost && lost + 28 <= places
    ensures p < Scale(1, lost + 28) <= Scale(1, places)
  {
    ExcessFits(p);
    ScaleGrows(1, Excess(p) + 28, lost + 28);
    ScaleGrows(1, lost + 28, places);
  }

  lemma UnderflowIsLittle(q: nat, n: nat, k: nat)
    requires q <= Scale(1, 28) && n > 28
    ensures Unscale(q, n) == Some(k) <==> k == 0 && q == 0
  {
    ScaleGrows(1, 28, n);
    LittleIsNoTen(q, n, k);
  }

  lemma UnderflowProduct(p: nat, exponent: int, k: nat)
    requires exponent < TINY && Excess(p) <= TINY - exponent && p < Scale(1, TINY - exponent + 28)
    ensures ReadProduct(p, exponent) == Some(k) <==> k == 0 && 2 * p <= Scale(1, TINY - exponent)
  {
    RoundedAway(p, TINY - exponent);
    UnderflowIsLittle(HalfEven(p, TINY - exponent), -(exponent + Lost(p, exponent)), k);
  }

  /** A decimal whose product lies below the smallest exponent is read as nothing but zero, and
      is so read exactly when at most half a unit of that exponent remains of it. */
  lemma UnderflowReadsZero(d: Decimal, k: nat)
    requires d.exponent < TINY && Excess(100 * d.digits) <= TINY - d.exponent && !d.negative
    ensures Read(d) == Some(k) <==> k == 0 && 200 * d.digits <= Scale(1, TINY - d.exponent)
    ensures IsCents(d, 0) <==> d.digits == 0
  {
    UnderflowIsShort(100 * d.digits, TINY - d.exponent, 14 - d.exponent);
    UnderflowProduct(100 * d.digits, d.exponent, k);
    ZeroStays(-d.exponent);
  }

  /** So a single digit with exponent -1000030 is no number of cents and is accepted. */
  lemma TinyDecimalsAreZero() returns (d: Decimal)
    ensures !d.negative && d.digits == 1 && d.exponent == -1_000_030
    ensures Read(d) == Some(0) && !IsCents(d, 0)
  {
    d := Decimal(false, 1, -1_000_030);
    TinyDecimalIsZero(d);
  }

  lemma TinyDecimalIsZero(d: Decimal)
    requires !d.negative && d.digits == 1 && d.exponent < TINY - 2
    ensures Read(d) == Some(0) && !IsCents(d, 0)
  {
    HundredIsShort(100 * d.digits);
    ScaleByHundred(1);
    ThreePlaces(TINY - d.exponent);
    UnderflowReadsZero(d, 0);
  }

  lemma HundredIsShort(p: nat)
    requires p == 100
    ensures Excess(p) == 0
  {
    ScaleByHundred(1);
    ScaleGrows(1, 3, 28);
  }

  lemma ThreePlaces(n: nat)
    requires n >= 3
    ensures Scale(1, n) >= 1000
  {
    ScaleByHundred(1);
    ScaleGrows(1, 3, n);
  }

  // ----- Beyond the twenty-sixth digit -----

  /** Not every accepted decimal is a number of cents: this one has its last digit in the
      thirty-first place behind the point and is read as if it had none there. */
  lemma LongDecimalsAreRounded() returns (d: Decimal)
    ensures d.exponent == -31 && Read(d) == Some(100) && !IsCents(d, 100)
  {
    d := Decimal(false, Scale(1, 31) + 1, -31);
    LongDecimalIsRounded(d);
  }

  lemma LongDecimalIsRounded(d: Decimal)
    requires d == Decimal(false, Scale(1, 31) + 1, -31)
    ensures Read(d) == Some(100) && !IsCents(d, 100)
  {
    ScaleTwice(1, 31, 2);
    ScaleByHundred(Scale(1, 31));
    LongProductIsRead(100 * d.digits);
    ScaleGrows(1, 32, 45);
  }

  lemma LongProductIsRead(p: nat)
    requires p == Scale(1, 33) + 100
    ensures ReadProduct(p, -31) == Some(100) && !IsProduct(p, -31, 100)
  {
    LongProductLosesSix(p);
    LongProductIsCut(p);
    ScaleTwice(1, 27, 6);
    UnscaleMeans(Scale(1, 27), 25, 100);
    ScaleByHundred(1);
    ScaleTwice(1, 2, 25);
    ScaleTwice(1, 2, 31);
  }

  lemma LongProductLosesSix(p: nat)
    requires p == Scale(1, 33) + 100
    ensures Excess(p) == 6
  {
    ExcessFits(p);
    ScaleGrows(1, 28, 33);
    ScaleGrows(1, 2, 33);
    if Excess(p) > 6 {
      ScaleGrows(1, 34, Excess(p) + 27);
    } else if Excess(p) < 6 {
      ScaleGrows(1, Excess(p) + 28, 33);
    }
  }

  lemma CutOfSum(q: nat, small: nat, n: nat)
    requires small < Scale(1, n)
    ensures Cut(Scale(q, n) + small, n) == q
  {
    var p := Scale(q, n) + small;
    CutFits(p, n);
    NextIsLarger(q, Cut(p, n), n);
    NextIsLarger(Cut(p, n), q, n);
  }

  lemma NextIsLarger(q: nat, r: nat, n: nat)
    ensures q < r ==> Scale(q, n) + Scale(1, n) <= Scale(r, n)
  {
    ScaleAdds(q, 1, n);
    ScaleKeepsOrder(r, q + 1, n);
  }

  lemma LongProductIsCut(p: nat)
    requires p == Scale(1, 33) + 100
    ensures Cut(p, 6) == Scale(1, 27)
  {
    ScaleTwice(1, 27, 6);
    ScaleGrows(1, 2, 6);
    CutOfSum(Scale(1, 27), 100, 6);
  }
}
