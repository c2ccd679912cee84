/** Rounding down to a multiple of a bucket width, and the arithmetic facts it rests on. */
module Floors {
  /** The multiple of `width` at or below `t`; the modulus is never negative. */
  function FloorTo(t: int, width: int): (b: int)
    requires width > 0
    ensures b <= t < b + width
  {
    t - t % width
  }

  lemma NextMultiple(p: int, q: int, width: int)
    requires width > 0 && p < q
    ensures p * width + width <= q * width
    decreases q - p
  {
    assert (q - 1) * width == q * width - width;
    if p < q - 1 {
      NextMultiple(p, q - 1, width);
    }
  }

  lemma QuotientIsUnique(t: int, width: int, q: int, r: int)
    requires width > 0 && t == q * width + r && 0 <= r < width
    ensures t / width == q && t % width == r
  {
    var q' := t / width;
    assert t == q' * width + t % width;
    if q < q' {
      NextMultiple(q, q', width);
    } else if q' < q {
      NextMultiple(q', q, width);
    }
  }

  lemma MultipleHasNoRemainder(q: int, width: int)
    requires width > 0
    ensures (q * width) % width == 0
  {
    QuotientIsUnique(q * width, width, q, 0);
  }

  /** The boundary is the only multiple of the width within one width below `t`. */
  lemma FloorToIsUnique(t: int, width: int, b: int)
    requires width > 0 && b % width == 0 && b <= t < b + width
    ensures FloorTo(t, width) == b
  {
    assert b == b / width * width;
    QuotientIsUnique(t, width, b / width, t - b);
  }

  lemma FloorToIsMultiple(t: int, width: int)
    requires width > 0
    ensures FloorTo(t, width) % width == 0
  {
    assert FloorTo(t, width) == t / width * width;
    MultipleHasNoRemainder(t / width, width);
  }

  lemma FloorToMonotone(a: int, b: int, width: int)
    requires width > 0 && a <= b
    ensures FloorTo(a, width) <= FloorTo(b, width)
  {
    var p, q := a / width, b / width;
    assert a == p * width + a % width && b == q * width + b % width;
    if q < p {
      NextMultiple(q, p, width);
    } else if p < q {
      NextMultiple(p, q, width);
    }
  }

  // ------------------------------------------------ multiples of a page size

  lemma MultiplesAdd(x: int, y: int, m: int)
    requires m > 0 && x % m == 0 && y % m == 0
    ensures (x + y) % m == 0 && (x - y) % m == 0
  {
    var p, q := x / m, y / m;
    assert x == p * m && y == q * m;
    assert x + y == (p + q) * m && x - y == (p - q) * m;
    MultipleHasNoRemainder(p + q, m);
    MultipleHasNoRemainder(p - q, m);
  }

  lemma ShiftByMultiple(x: int, y: int, m: int)
    requires m > 0 && y % m == 0
    ensures (x + y) % m == x % m
  {
    var p, q := x / m, y / m;
    assert x + y == (p + q) * m + x % m;
    QuotientIsUnique(x + y, m, p + q, x % m);
  }

  lemma SmallMultiple(x: int, m: int)
    requires m > 0 && x % m == 0 && 0 <= x < m
    ensures x == 0
  {}
}
