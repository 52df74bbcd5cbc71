/** Real arithmetic shared by the modules; products and quotients are named so that proofs about
    them stay small. */
module Numbers {

  function Abs(x: real): real {
    if x >= 0.0 then x else -x
  }

  function Max(a: real, b: real): real {
    if a >= b then a else b
  }

  function Min(a: real, b: real): real {
    if a <= b then a else b
  }

  function Times(a: real, b: real): real {
    a * b
  }

  function Over(p: real, q: real): real
    requires q != 0.0
  {
    p / q
  }

  lemma Quotient(p: real, q: real)
    requires q != 0.0
    ensures Times(Over(p, q), q) == p
  {
  }

  lemma ProductOrder(a: real, b: real, n: real)
    requires n > 0.0 && a * n <= b * n
    ensures a <= b
  {
  }

  function Sum(s: seq<real>): real {
    if s == [] then 0.0 else Sum(s[..|s|-1]) + s[|s|-1]
  }

  lemma {:induction false} SumWithin(s: seq<real>, lo: real, hi: real)
    requires forall k | 0 <= k < |s| :: lo <= s[k] <= hi
    ensures Times(lo, |s| as real) <= Sum(s) <= Times(hi, |s| as real)
  {
    if s == [] {
      assert Times(lo, 0.0) == 0.0 && Times(hi, 0.0) == 0.0;
    } else {
      var n := |s| - 1;
      SumWithin(s[..n], lo, hi);
      assert Times(lo, |s| as real) == Times(lo, n as real) + lo;
      assert Times(hi, |s| as real) == Times(hi, n as real) + hi;
    }
  }

  lemma OverWithin(total: real, n: real, lo: real, hi: real)
    requires n > 0.0 && Times(lo, n) <= total <= Times(hi, n)
    ensures lo <= Over(total, n) <= hi
  {
    var m := Over(total, n);
    Quotient(total, n);
    ProductOrder(lo, m, n);
    ProductOrder(m, hi, n);
  }
}
