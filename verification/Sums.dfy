/** Sums of an integer weight over a sequence: how one changed element moves the sum, and how
    two sums compare. Thread counts and termination measures are all sums of this kind. */
module Sums {

  function Sum<T>(s: seq<T>, f: T -> int): int {
    if |s| == 0 then 0 else Sum(s[..|s| - 1], f) + f(s[|s| - 1])
  }

  lemma SumAppend<T>(s: seq<T>, f: T -> int, x: T)
    ensures Sum(s + [x], f) == Sum(s, f) + f(x)
  {
    assert (s + [x])[..|s|] == s;
  }

  lemma {:induction false} SumUpdate<T>(s: seq<T>, f: T -> int, i: nat, x: T)
    requires i < |s|
    ensures Sum(s[i := x], f) == Sum(s, f) - f(s[i]) + f(x)
  {
    var last := |s| - 1;
    if i < last {
      SumUpdate(s[..last], f, i, x);
      assert s[i := x][..last] == s[..last][i := x];
    } else {
      assert s[i := x][..last] == s[..last];
    }
  }

  /** Pointwise comparison lifts to the sums, and one strict place makes the sums differ. */
  lemma {:induction false} SumMono<T>(s: seq<T>, f: T -> int, t: seq<T>, g: T -> int)
    requires |s| == |t|
    requires forall i :: 0 <= i < |s| ==> f(s[i]) <= g(t[i])
    ensures Sum(s, f) <= Sum(t, g)
    ensures (exists i :: 0 <= i < |s| && f(s[i]) < g(t[i])) ==> Sum(s, f) < Sum(t, g)
  {
    if |s| > 0 {
      var last := |s| - 1;
      SumMono(s[..last], f, t[..last], g);
      if i :| 0 <= i < |s| && f(s[i]) < g(t[i]) {
        assert i < last ==> f(s[..last][i]) < g(t[..last][i]);
      }
    }
  }

  /** A rise of at most d in every place raises the sum by at most d times the length. */
  lemma {:induction false} SumRise<T>(s: seq<T>, t: seq<T>, f: T -> int, d: int)
    requires |s| == |t|
    requires forall i :: 0 <= i < |s| ==> f(t[i]) <= f(s[i]) + d
    ensures Sum(t, f) <= Sum(s, f) + d * |s|
  {
    if |s| > 0 {
      var last := |s| - 1;
      SumRise(s[..last], t[..last], f, d);
      assert d * |s| == d * last + d;
    }
  }

  lemma {:induction false} SumNonNeg<T>(s: seq<T>, f: T -> int)
    requires forall i :: 0 <= i < |s| ==> 0 <= f(s[i])
    ensures 0 <= Sum(s, f)
    ensures forall i :: 0 <= i < |s| ==> f(s[i]) <= Sum(s, f)
  {
    if |s| > 0 {
      var last := |s| - 1;
      SumNonNeg(s[..last], f);
      forall i | 0 <= i < |s| ensures f(s[i]) <= Sum(s, f) {
        assert i < last ==> f(s[..last][i]) <= Sum(s[..last], f);
      }
    }
  }

  lemma {:induction false} SumZero<T>(s: seq<T>, f: T -> int)
    requires forall i :: 0 <= i < |s| ==> f(s[i]) == 0
    ensures Sum(s, f) == 0
  {
    if |s| > 0 {
      SumZero(s[..|s| - 1], f);
    }
  }
}
