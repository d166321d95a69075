/** Types and functions shared by the components. */
module Basics {
  datatype Option<+T> = None | Some(value: T)

  // The elements that satisfy a condition, in their order.
  function Kept<T>(xs: seq<T>, keep: T -> bool): seq<T> {
    if xs == [] then [] else (if keep(xs[0]) then [xs[0]] else []) + Kept(xs[1..], keep)
  }

  lemma {:induction false} KeptAppend<T>(xs: seq<T>, ys: seq<T>, keep: T -> bool)
    ensures Kept(xs + ys, keep) == Kept(xs, keep) + Kept(ys, keep)
    decreases |xs|
  {
    if xs == [] {
      assert xs + ys == ys;
    } else {
      var all := xs + ys;
      assert all[0] == xs[0] && all[1..] == xs[1..] + ys;
      KeptAppend(xs[1..], ys, keep);
      var first := if keep(xs[0]) then [xs[0]] else [];
      assert Kept(all, keep) == first + (Kept(xs[1..], keep) + Kept(ys, keep));
    }
  }

  lemma {:induction false} KeptAll<T>(xs: seq<T>, keep: T -> bool)
    requires forall i | 0 <= i < |xs| :: keep(xs[i])
    ensures Kept(xs, keep) == xs
    decreases |xs|
  {
    if xs != [] { KeptAll(xs[1..], keep); }
  }

  lemma {:induction false} KeptBut<T>(xs: seq<T>, i: nat, keep: T -> bool)
    requires i < |xs| && forall j | 0 <= j < |xs| :: keep(xs[j]) <==> j != i
    ensures Kept(xs, keep) == xs[..i] + xs[i + 1..]
    decreases i
  {
    if i == 0 {
      KeptAll(xs[1..], keep);
    } else {
      KeptBut(xs[1..], i - 1, keep);
      assert xs[..i] == [xs[0]] + xs[1..][..i - 1] && xs[1..][i..] == xs[i + 1..];
    }
  }
}
