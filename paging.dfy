/** Page arithmetic shared by the upload preview and the stored-records
    table: the page count `Math.ceil(n / size)` and the clamped
    Previous/Next buttons. */
module Paging {

  function Min(a: int, b: int): int { if a <= b then a else b }
  function Max(a: int, b: int): int { if a >= b then a else b }

  /** `Math.ceil(n / size)` on non-negative integers: the fewest pages of
      `size` items that hold `n` items. */
  function CeilDiv(n: nat, size: nat): (r: nat)
    requires size > 0
    ensures r * size >= n
    ensures r > 0 ==> (r - 1) * size < n
    ensures r == 0 <==> n == 0
  {
    var q := (n + size - 1) / size;
    var rem := (n + size - 1) % size;
    assert n + size - 1 == q * size + rem && 0 <= rem < size;
    assert (q - 1) * size == q * size - size;
    q
  }

  /** The two bounds of `CeilDiv` determine it. */
  lemma CeilDivUnique(n: nat, size: nat, r: nat)
    requires size > 0
    requires r * size >= n
    requires r > 0 ==> (r - 1) * size < n
    ensures r == CeilDiv(n, size)
  {
    var c := CeilDiv(n, size);
    if c > 0 {
      MulCancel(c - 1, r, size);
    }
    if r > 0 {
      MulCancel(r - 1, c, size);
    }
  }

  /** Cancelling a positive factor keeps a strict order. */
  lemma MulCancel(a: int, b: int, size: int)
    requires size > 0 && a * size < b * size
    ensures a < b
  {
    assert (b - a) * size == b * size - a * size;
  }

  /** Multiplying by a non-negative factor keeps the order. */
  lemma MulMonotone(a: int, b: int, c: int)
    requires a <= b && c >= 0
    ensures a * c <= b * c
  {
    assert b * c - a * c == (b - a) * c;
  }

  /** One more full page of items needs one more page. */
  lemma CeilDivStep(n: nat, size: nat)
    requires size > 0 && n > size
    ensures CeilDiv(n, size) == CeilDiv(n - size, size) + 1
  {
    var c := CeilDiv(n - size, size);
    assert (c + 1) * size == c * size + size;
    CeilDivUnique(n, size, c + 1);
  }

  /** Previous: `Math.max(1, p - 1)`. */
  function PreviousPage(p: int): int
  {
    Max(1, p - 1)
  }

  /** Next: `Math.min(totalPages, p + 1)`. */
  function NextPage(p: int, totalPages: int): int
  {
    Min(totalPages, p + 1)
  }

  /** From any page inside 1..totalPages both buttons stay inside it;
      Previous steps back unless on page 1 and Next steps forward unless on
      the last page. */
  lemma ButtonsStayInRange(p: int, totalPages: int)
    requires 1 <= p <= totalPages
    ensures 1 <= PreviousPage(p) <= totalPages
    ensures 1 <= NextPage(p, totalPages) <= totalPages
    ensures PreviousPage(p) == if p == 1 then 1 else p - 1
    ensures NextPage(p, totalPages) == if p == totalPages then p else p + 1
  {
  }
}
