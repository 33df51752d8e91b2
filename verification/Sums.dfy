/** Sums of integer sequences, for ranking arguments. */
module Sums {

  function Sum(ws: seq<int>): int {
    if ws == [] then 0 else Sum(ws[..|ws| - 1]) + ws[|ws| - 1]
  }

  lemma {:induction false} SumUpdate(ws: seq<int>, i: nat, x: int)
    requires i < |ws|
    ensures Sum(ws[i := x]) == Sum(ws) - ws[i] + x
  {
    var last := |ws| - 1;
    if i == last {
      assert ws[i := x][..last] == ws[..last];
    } else {
      assert ws[i := x][..last] == ws[..last][i := x];
      SumUpdate(ws[..last], i, x);
    }
  }

  lemma {:induction false} SumRise(ws: seq<int>, vs: seq<int>, d: int)
    requires |ws| == |vs| && forall i :: 0 <= i < |ws| ==> vs[i] <= ws[i] + d
    ensures Sum(vs) <= Sum(ws) + |ws| * d
  {
    if ws != [] {
      SumRise(ws[..|ws| - 1], vs[..|vs| - 1], d);
      assert |ws| * d == (|ws| - 1) * d + d;
    }
  }

  lemma {:induction false} SumBound(ws: seq<int>, b: int)
    requires forall i :: 0 <= i < |ws| ==> 0 <= ws[i] <= b
    ensures 0 <= Sum(ws) <= |ws| * b
  {
    if ws != [] {
      SumBound(ws[..|ws| - 1], b);
      assert |ws| * b == (|ws| - 1) * b + b;
    }
  }

  lemma {:induction false} NonNegative(ws: seq<int>)
    requires forall i :: 0 <= i < |ws| ==> ws[i] >= 0
    ensures Sum(ws) >= 0
  {
    if ws != [] {
      NonNegative(ws[..|ws| - 1]);
    }
  }
}
