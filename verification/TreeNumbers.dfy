/** The text of a membership's place in the invitation tree: every branch order
    printed with at least four digits, joined by dashes ("0001-0012-10000"). */
module TreeNumbers {

  predicate IsDigit(c: char) { '0' <= c <= '9' }

  predicate AllDigits(s: string) { forall j | 0 <= j < |s| :: IsDigit(s[j]) }

  function DigitChar(d: nat): (c: char)
    requires d < 10
    ensures IsDigit(c) && (c as int) - ('0' as int) == d
  {
    ('0' as int + d) as char
  }

  /** Decimal digits of a number, most significant first. */
  function Digits(n: nat): (s: string)
    ensures s != "" && AllDigits(s)
  {
    if n < 10 then [DigitChar(n)] else Digits(n / 10) + [DigitChar(n % 10)]
  }

  /** The number a digit string denotes; leading zeros do not count. */
  function Value(s: string): nat
    requires AllDigits(s)
  {
    assert s != "" ==> IsDigit(s[|s| - 1]);
    if s == "" then 0 else 10 * Value(s[..|s| - 1]) + ((s[|s| - 1] as int) - ('0' as int))
  }

  lemma {:induction false} ValueOfDigits(n: nat)
    ensures Value(Digits(n)) == n
  {
    if n >= 10 {
      ValueOfDigits(n / 10);
      assert Digits(n)[..|Digits(n)| - 1] == Digits(n / 10);
    } else {
      assert Digits(n)[..0] == "";
    }
  }

  function Zeros(k: nat): (s: string)
    ensures |s| == k && forall j | 0 <= j < k :: s[j] == '0'
  {
    if k == 0 then "" else "0" + Zeros(k - 1)
  }

  lemma {:induction false} ValueIgnoresZeros(zeros: string, s: string)
    requires forall j | 0 <= j < |zeros| :: zeros[j] == '0'
    requires AllDigits(s)
    ensures AllDigits(zeros + s) && Value(zeros + s) == Value(s)
    decreases |zeros| + |s|
  {
    var t := zeros + s;
    if s != "" {
      assert t[..|t| - 1] == zeros + s[..|s| - 1];
      ValueIgnoresZeros(zeros, s[..|s| - 1]);
    } else if zeros != "" {
      assert t[..|t| - 1] == zeros[..|zeros| - 1] + "";
      ValueIgnoresZeros(zeros[..|zeros| - 1], "");
    }
  }

  /** A branch order as printed: zero-padded to four digits, longer when needed. */
  function Pad(n: nat): (s: string)
    ensures |s| >= 4 && AllDigits(s)
  {
    var d := Digits(n);
    if |d| < 4 then Zeros(4 - |d|) + d else d
  }

  lemma PadInjective(a: nat, b: nat)
    requires Pad(a) == Pad(b)
    ensures a == b
  {
    ValueOfPad(a);
    ValueOfPad(b);
  }

  lemma ValueOfPad(n: nat)
    ensures Value(Pad(n)) == n
  {
    var d := Digits(n);
    ValueOfDigits(n);
    if |d| < 4 {
      ValueIgnoresZeros(Zeros(4 - |d|), d);
    }
  }

  /** Ten to the k. */
  function Ten(k: nat): nat { if k == 0 then 1 else 10 * Ten(k - 1) }

  lemma {:induction false} FewDigits(n: nat, k: nat, bound: nat)
    requires k > 0 && bound == Ten(k) && n < bound
    ensures |Digits(n)| <= k
  {
    if n >= 10 {
      FewDigits(n / 10, k - 1, Ten(k - 1));
    }
  }

  /** A branch order below ten thousand is printed with exactly four digits, which read as it. */
  lemma PadIsFourDigits(n: nat)
    requires n < 10_000
    ensures |Pad(n)| == 4 && Value(Pad(n)) == n
  {
    assert Ten(4) == 10_000;
    FewDigits(n, 4, 10_000);
    ValueOfPad(n);
  }

  /** The number of the place `branch` under the place `parent`. */
  function Child(parent: string, branch: nat): string { parent + "-" + Pad(branch) }

  /** A printed child number names its parent number and its branch. */
  lemma ChildInjective(p: string, b: nat, q: string, c: nat)
    requires Child(p, b) == Child(q, c)
    ensures p == q && b == c
  {
    LastDash(p, Pad(b), q, Pad(c));
    var s := Child(p, b);
    assert s[|p| + 1..] == Pad(b) && s[|q| + 1..] == Pad(c);
    assert s[..|p|] == p && s[..|q|] == q;
    PadInjective(b, c);
  }

  lemma LastDash(p: string, x: string, q: string, y: string)
    requires AllDigits(x) && AllDigits(y)
    requires p + "-" + x == q + "-" + y
    ensures |p| == |q|
  {
    var s := p + "-" + x;
    assert s[|p|] == '-' && s[|q|] == '-';
  }

  /** A top-level number is never the number of a child place. */
  lemma RootIsNoChild(a: nat, p: string, b: nat)
    ensures Pad(a) != Child(p, b)
  {
    assert Child(p, b)[|p|] == '-';
  }

  /** A place in the tree: a top-level branch, or a branch under another place. */
  datatype Place = Top(branch: nat) | Below(parent: Place, branch: nat)

  /** The printed number of a place. */
  function Text(place: Place): string
  {
    match place
    case Top(b) => Pad(b)
    case Below(p, b) => Child(Text(p), b)
  }

  /** Two different places never print alike, so comparing numbers compares places. */
  lemma {:induction false} TextInjective(x: Place, y: Place)
    requires Text(x) == Text(y)
    ensures x == y
  {
    match (x, y)
    case (Top(a), Top(b)) => PadInjective(a, b);
    case (Top(a), Below(p, b)) => RootIsNoChild(a, Text(p), b);
    case (Below(p, a), Top(b)) => RootIsNoChild(b, Text(p), a);
    case (Below(p, a), Below(q, b)) =>
      ChildInjective(Text(p), a, Text(q), b);
      TextInjective(p, q);
  }

  /** `place` is `top` or lies below it. */
  predicate Within(place: Place, top: Place)
  {
    place == top || (place.Below? && Within(place.parent, top))
  }

  /** The same place after everything at and below `top` moved to `target`. */
  function Rebase(place: Place, top: Place, target: Place): Place
  {
    if place == top then target
    else match place
      case Top(b) => Top(b)
      case Below(p, b) => Below(Rebase(p, top, target), b)
  }

  lemma JoinTail(a: string, b: string, tail: string, cut: nat)
    requires cut <= |b|
    ensures (b + tail)[cut..] == b[cut..] + tail
    ensures a + (b[cut..] + tail) == (a + b[cut..]) + tail
  {
  }

  /** A child's text is its parent's with a tail that only depends on the branch. */
  lemma ChildText(place: Place)
    requires place.Below?
    ensures Text(place) == Text(place.parent) + ("-" + Pad(place.branch))
  {
  }

  /** Cutting the old number off the front of the text and writing the new one there
      prints the moved place. */
  lemma {:induction false} TextOfRebase(place: Place, top: Place, target: Place)
    requires Within(place, top)
    ensures Text(top) <= Text(place)
    ensures Text(target) + Text(place)[|Text(top)|..] == Text(Rebase(place, top, target))
  {
    var cut := |Text(top)|;
    if place == top {
      assert Text(place)[cut..] == "";
    } else {
      TextOfRebase(place.parent, top, target);
      var moved := Rebase(place, top, target);
      ChildText(place);
      ChildText(moved);
      JoinTail(Text(target), Text(place.parent), "-" + Pad(place.branch), cut);
    }
  }

  /** Moving different places below `top` leaves them different. */
  lemma {:induction false} RebaseInjective(x: Place, y: Place, top: Place, target: Place)
    requires Within(x, top) && Within(y, top)
    requires Rebase(x, top, target) == Rebase(y, top, target)
    ensures x == y
    decreases x, y
  {
    if x == top && y != top {
      WithinIsNotAbove(y, top, target);
    } else if x != top && y == top {
      WithinIsNotAbove(x, top, target);
    } else if x != top && y != top {
      RebaseInjective(x.parent, y.parent, top, target);
    }
  }

  /** A place strictly below `top` never moves to `target` itself. */
  lemma {:induction false} WithinIsNotAbove(x: Place, top: Place, target: Place)
    requires Within(x, top) && x != top
    ensures Depth(Rebase(x, top, target)) > Depth(target)
  {
    if x.parent != top {
      WithinIsNotAbove(x.parent, top, target);
    }
  }

  function Depth(place: Place): nat
  {
    match place
    case Top(_) => 0
    case Below(p, _) => 1 + Depth(p)
  }
}
