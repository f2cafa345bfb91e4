/** Sorting finite sets: the one ascending sequence of their elements. */
module Ordering {

  ghost predicate IsOrder<T(!new)>(less: (T, T) -> bool)
  {
    && (forall a, b {:trigger less(a, b)} :: a == b ==> !less(a, b))
    && (forall a, b {:trigger less(a, b), less(b, a)} {:trigger less(a, b)} :: a == b || less(a, b) || less(b, a))
    && (forall a, b, c {:trigger less(a, b), less(b, c)} :: less(a, b) && less(b, c) ==> less(a, c))
  }

  predicate Least<T(==)>(x: T, xs: set<T>, less: (T, T) -> bool)
  {
    x in xs && forall y | y in xs && y != x :: less(x, y)
  }

  lemma {:induction false} LeastExists<T(!new)>(xs: set<T>, less: (T, T) -> bool)
    requires IsOrder(less) && xs != {}
    ensures exists x :: Least(x, xs, less)
    decreases xs
  {
    var x :| x in xs;
    if xs == {x} {
      assert Least(x, xs, less);
    } else {
      LeastExists(xs - {x}, less);
      var y :| Least(y, xs - {x}, less);
      assert less(x, y) ==> forall z | z in xs - {x} && z != y :: less(y, z) && less(x, z);
      assert Least(if less(x, y) then x else y, xs, less);
    }
  }

  lemma LeastIsUnique<T(!new)>(x: T, y: T, xs: set<T>, less: (T, T) -> bool)
    requires IsOrder(less) && Least(x, xs, less) && Least(y, xs, less)
    ensures x == y
  {
  }

  ghost predicate Ascending<T>(s: seq<T>, less: (T, T) -> bool)
  {
    forall j, k | 0 <= j < k < |s| :: less(s[j], s[k])
  }

  /** The elements of `xs` in ascending order, each once. */
  function Sorted<T(==, !new)>(xs: set<T>, less: (T, T) -> bool): (s: seq<T>)
    requires IsOrder(less)
    ensures forall x :: x in s <==> x in xs
    ensures Ascending(s, less) && |s| == |xs|
    decreases xs
  {
    if xs == {} then []
    else
      LeastExists(xs, less);
      assert forall x, y | Least(x, xs, less) && Least(y, xs, less) :: x == y by {
        forall x, y | Least(x, xs, less) && Least(y, xs, less) ensures x == y { LeastIsUnique(x, y, xs, less); }
      }
      var x :| Least(x, xs, less);
      [x] + Sorted(xs - {x}, less)
  }

  /** An ascending listing of a set is the only one. */
  lemma {:induction false} AscendingIsUnique<T(!new)>(s: seq<T>, t: seq<T>, less: (T, T) -> bool)
    requires IsOrder(less) && Ascending(s, less) && Ascending(t, less)
    requires forall x :: x in s <==> x in t
    ensures s == t
  {
    assert |s| > 0 ==> s[0] in t;
    assert |t| > 0 ==> t[0] in s;
    if s != [] && t != [] {
      HeadIsLeast(s, less);
      HeadIsLeast(t, less);
      NotBoth(s[0], t[0], less);
      assert s[0] == t[0];
      forall x ensures x in s[1..] <==> x in t[1..] {
        assert x in s <==> x == s[0] || x in s[1..];
        assert x in t <==> x == t[0] || x in t[1..];
      }
      AscendingIsUnique(s[1..], t[1..], less);
    }
  }

  lemma NotBoth<T(!new)>(x: T, y: T, less: (T, T) -> bool)
    requires IsOrder(less)
    ensures !(less(x, y) && less(y, x)) && !less(x, x)
  {
  }

  lemma HeadIsLeast<T(!new)>(s: seq<T>, less: (T, T) -> bool)
    requires IsOrder(less) && Ascending(s, less) && s != []
    ensures forall x | x in s && x != s[0] :: less(s[0], x)
    ensures s[0] !in s[1..]
  {
  }

  // ----- Text order -----

  /** Text compares character by character; a prefix comes first. */
  predicate TextBefore(a: string, b: string)
  {
    b != "" && (a == "" || a[0] < b[0] || (a[0] == b[0] && TextBefore(a[1..], b[1..])))
  }

  lemma {:induction false} TextTrichotomy(a: string, b: string)
    ensures a == b ==> !TextBefore(a, b)
    ensures a != b ==> TextBefore(a, b) != TextBefore(b, a)
    decreases |a|
  {
    if a != "" && b != "" {
      TextTrichotomy(a[1..], b[1..]);
      assert a == [a[0]] + a[1..] && b == [b[0]] + b[1..];
    }
  }

  lemma {:induction false} TextTransitive(a: string, b: string, c: string)
    requires TextBefore(a, b) && TextBefore(b, c)
    ensures TextBefore(a, c)
    decreases |a|
  {
    if a != "" && a[0] == b[0] && b[0] == c[0] {
      TextTransitive(a[1..], b[1..], c[1..]);
    }
  }
}
