/** Counting the items that pass a check (`sum(1 for r in rs if p(r))`), and the percentage
    `part / whole * 100` that both the availability figure and the security score compute. */
module Ratios {

  /** The number of items of `xs` that satisfy `p`. */
  function CountIf<T>(xs: seq<T>, p: T -> bool): (n: nat)
    ensures n <= |xs|
    ensures n == |xs| <==> forall i :: 0 <= i < |xs| ==> p(xs[i])
    ensures n == 0 <==> forall i :: 0 <= i < |xs| ==> !p(xs[i])
  {
    if xs == [] then 0
    else CountIf(xs[..|xs| - 1], p) + (if p(xs[|xs| - 1]) then 1 else 0)
  }

  /** Two checks that no item passes together count at most all items between them. */
  lemma {:induction false} CountIfDisjoint<T>(xs: seq<T>, p: T -> bool, q: T -> bool)
    requires forall x :: !(p(x) && q(x))
    ensures CountIf(xs, p) + CountIf(xs, q) <= |xs|
  {
    if xs != [] {
      CountIfDisjoint(xs[..|xs| - 1], p, q);
    }
  }

  /** The count depends only on the check's verdict at each position. */
  lemma {:induction false} CountIfAgree<T>(xs: seq<T>, ys: seq<T>, p: T -> bool)
    requires |xs| == |ys|
    requires forall i :: 0 <= i < |xs| ==> p(xs[i]) == p(ys[i])
    ensures CountIf(xs, p) == CountIf(ys, p)
  {
    if xs != [] {
      CountIfAgree(xs[..|xs| - 1], ys[..|ys| - 1], p);
    }
  }

  function Percentage(part: nat, whole: nat): (p: real)
    requires whole > 0
    ensures p * (whole as real) == (part as real) * 100.0
    ensures part <= whole ==> 0.0 <= p <= 100.0
    ensures p == 100.0 <==> part == whole
    ensures p == 0.0 <==> part == 0
  {
    var w := whole as real;
    var r := (part as real) / w;
    assert r * w == part as real;
    assert part <= whole ==> r <= 1.0 by {
      if part <= whole {
        assert r * w <= 1.0 * w;
      }
    }
    assert r == 1.0 ==> part == whole by {
      if r == 1.0 {
        assert part as real == 1.0 * w;
      }
    }
    r * 100.0
  }

  /** More passed items give a higher percentage of the same whole. */
  lemma PercentageMonotone(part1: nat, part2: nat, whole: nat)
    requires whole > 0 && part1 <= part2
    ensures Percentage(part1, whole) <= Percentage(part2, whole)
  {
    var w := whole as real;
    assert (part1 as real) / w <= (part2 as real) / w;
  }
}
