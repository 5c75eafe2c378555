/** Powers of two, for doubling delays, and how many numbers a stretch holds. */
module Numbers {
  function Power2(n: nat): nat {
    if n == 0 then 1 else 2 * Power2(n - 1)
  }

  lemma {:induction false} Power2Monotone(m: nat, n: nat)
    requires m <= n
    ensures 1 <= Power2(m) <= Power2(n)
  {
    if n > 0 {
      Power2Monotone(if m < n then m else n - 1, n - 1);
    }
  }

  /** The `n` numbers from `a` on. */
  ghost function Span(a: int, n: nat): set<int> {
    if n == 0 then {} else Span(a, n - 1) + {a + n - 1}
  }

  lemma {:induction false} SpanIs(a: int, n: nat)
    ensures |Span(a, n)| == n
    ensures forall i :: i in Span(a, n) <==> a <= i < a + n
  {
    if n > 0 {
      SpanIs(a, n - 1);
    }
  }

  lemma SubsetSize(s: set<int>, t: set<int>)
    requires s <= t
    ensures |s| <= |t|
  {
    assert t == s + (t - s);
  }
}
