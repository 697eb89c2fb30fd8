/** Integer arithmetic that several models share. */
module Arithmetic {

  function Min(a: int, b: int): int {
    if a <= b then a else b
  }

  function Max(a: int, b: int): int {
    if a <= b then b else a
  }

  function CeilDiv(a: int, b: int): int
    requires b > 0
  {
    (a + b - 1) / b
  }

  function Pow(b: nat, n: nat): nat {
    if n == 0 then 1 else b * Pow(b, n - 1)
  }

  // ---- Products ----

  lemma ProductGrows(x: int, y: int, n: int)
    requires x <= y && n >= 0
    ensures x * n <= y * n
  {
    assert (y - x) * n >= 0;
  }

  lemma OneMoreProduct(x: int, n: int)
    ensures (x + 1) * n == x * n + n
  {
  }

  lemma Regroup(a: int, b: int, x: int, y: int)
    ensures (a * x) * (b * y) == (a * b) * (x * y)
  {
    var t := b * y;
    assert (a * x) * t == a * (x * t);
    assert x * (b * y) == b * (x * y);
    assert a * (b * (x * y)) == (a * b) * (x * y);
  }

  // ---- Powers ----

  lemma {:induction false} PowProduct(a: nat, b: nat, n: nat)
    ensures Pow(a, n) * Pow(b, n) == Pow(a * b, n)
  {
    if n == 0 {
    } else {
      PowProduct(a, b, n - 1);
      Regroup(a, b, Pow(a, n - 1), Pow(b, n - 1));
    }
  }

  lemma {:induction false} Pow2Grows(a: nat, b: nat)
    requires a <= b
    ensures 1 <= Pow(2, a) <= Pow(2, b)
    decreases b
  {
    if b == 0 {
    } else if a < b {
      Pow2Grows(a, b - 1);
    } else {
      Pow2Grows(a - 1, b - 1);
    }
  }

  lemma ScaledPow2Grows(base: int, a: nat, b: nat)
    requires base >= 0 && a <= b
    ensures base * Pow(2, a) <= base * Pow(2, b)
  {
    Pow2Grows(a, b);
    ProductGrows(Pow(2, a), Pow(2, b), base);
  }

  // ---- Quotients ----

  lemma MultiplesAreFar(k: int, n: nat)
    requires k != 0
    ensures k * n >= n || k * n <= 0 - n
  {
    if k >= 1 {
      ProductGrows(1, k, n);
    } else {
      ProductGrows(k, -1, n);
    }
  }

  /** Quotient and remainder are determined by what they are for. */
  lemma Quotient(a: nat, n: nat, q: nat, r: nat)
    requires r < n && a == q * n + r
    ensures a / n == q && a % n == r
  {
    assert a / n * n + a % n == q * n + r;
    assert (a / n - q) * n == r - a % n;
    if a / n != q {
      MultiplesAreFar(a / n - q, n);
    }
  }

  lemma QuotientGrows(a: nat, b: nat, n: nat)
    requires a <= b && n >= 1
    ensures a / n <= b / n
  {
    if a / n > b / n {
      ProductGrows(b / n + 1, a / n, n);
    }
  }

  lemma NextQuotient(a: nat, n: nat)
    requires n >= 1
    ensures a % n + 1 < n ==> (a + 1) / n == a / n && (a + 1) % n == a % n + 1
    ensures a % n + 1 == n ==> (a + 1) / n == a / n + 1 && (a + 1) % n == 0
  {
    var q, r := a / n, a % n;
    assert a == q * n + r;
    if r + 1 < n {
      Quotient(a + 1, n, q, r + 1);
    } else {
      assert a + 1 == (q + 1) * n + 0;
      Quotient(a + 1, n, q + 1, 0);
    }
  }

  /** The last of `a` things is in the last of the rounds. */
  lemma LastRound(a: nat, n: nat)
    requires n >= 1 && a >= 1
    ensures (a - 1) / n + 1 == CeilDiv(a, n)
  {
    var q, r := (a - 1) / n, (a - 1) % n;
    assert a + n - 1 == (q + 1) * n + r;
    Quotient(a + n - 1, n, q + 1, r);
  }

  lemma CeilCovers(a: int, b: int)
    requires b > 0
    ensures CeilDiv(a, b) * b >= a
  {
    var raised := a + b - 1;
    assert raised == raised / b * b + raised % b;
  }

  /** The last of the rounds begins inside the span. */
  lemma CeilIsTight(a: int, b: int)
    requires a >= 0 && b > 0
    ensures CeilDiv(a, b) >= 0 && (CeilDiv(a, b) > 0 ==> (CeilDiv(a, b) - 1) * b < a)
  {
    var raised := a + b - 1;
    assert raised == raised / b * b + raised % b;
    assert (raised / b - 1) * b == raised / b * b - b;
  }

  /** Counted multiples that begin inside a span. */
  lemma MultiplesFit(count: nat, span: int, step: int)
    requires step > 0 && span >= 0 && (count > 0 ==> (count - 1) * step < span)
    ensures count <= CeilDiv(span, step)
  {
    CeilCovers(span, step);
    if CeilDiv(span, step) <= count - 1 {
      ProductGrows(CeilDiv(span, step), count - 1, step);
    }
  }
}
