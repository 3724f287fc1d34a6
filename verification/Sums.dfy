/** Sums of integers, used by the step machines that weigh their participants. */
module Sums {

  function Sum(ws: seq<int>): int {
    if ws == [] then 0 else Sum(ws[..|ws| - 1]) + ws[|ws| - 1]
  }

  lemma {:induction false} SumUpdate(ws: seq<int>, i: nat, x: int)
    requires i < |ws|
    ensures Sum(ws[i := x]) == Sum(ws) - ws[i] + x
  {
    var n := |ws| - 1;
    if i < n {
      SumUpdate(ws[..n], i, x);
      assert ws[i := x][..n] == ws[..n][i := x];
    } else {
      assert ws[i := x][..n] == ws[..n];
    }
  }

  lemma SumAppend(ws: seq<int>, x: int)
    ensures Sum(ws + [x]) == Sum(ws) + x
  {
    assert (ws + [x])[..|ws|] == ws;
  }

  lemma {:induction false} SumConstant(ws: seq<int>, c: int)
    requires forall i :: 0 <= i < |ws| ==> ws[i] == c
    ensures Sum(ws) == c * |ws|
  {
    if ws != [] {
      SumConstant(ws[..|ws| - 1], c);
      assert c * |ws| == c * (|ws| - 1) + c;
    }
  }

  lemma {:induction false} SumNonNegative(ws: seq<int>)
    requires forall i :: 0 <= i < |ws| ==> ws[i] >= 0
    ensures Sum(ws) >= 0
  {
    if ws != [] { SumNonNegative(ws[..|ws| - 1]); }
  }

  lemma {:induction false} SumPositive(ws: seq<int>) returns (i: nat)
    requires Sum(ws) > 0
    ensures i < |ws| && ws[i] > 0
  {
    var n := |ws| - 1;
    if ws[n] > 0 { i := n; } else { i := SumPositive(ws[..n]); }
  }

  /** Pointwise at most `m` times gives at most `m` times in all. */
  lemma {:induction false} SumScaled(ws: seq<int>, vs: seq<int>, m: int)
    requires |ws| == |vs| && forall i :: 0 <= i < |ws| ==> ws[i] <= m * vs[i]
    ensures Sum(ws) <= m * Sum(vs)
  {
    if ws != [] {
      var n := |ws| - 1;
      SumScaled(ws[..n], vs[..n], m);
      assert m * (Sum(vs[..n]) + vs[n]) == m * Sum(vs[..n]) + m * vs[n];
    }
  }
}
