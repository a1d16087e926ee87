/** Facts about products and quotients, and the next member of an arithmetic progression. */
module Arithmetic {

  lemma Product(x: nat, y: nat)
    ensures x * y >= 0
  {
  }

  lemma Multiples(a: int, b: int, w: int)
    requires w > 0
    ensures a < b ==> a * w + w <= b * w
    ensures a > b ==> b * w + w <= a * w
  {
    if a < b {
      Product(b - a - 1, w);
      assert (b - a - 1) * w == b * w - a * w - w;
    } else if a > b {
      Product(a - b - 1, w);
      assert (a - b - 1) * w == a * w - b * w - w;
    }
  }

  lemma DivIs(x: int, p: int, q: int)
    requires p > 0 && q * p <= x < q * p + p
    ensures x / p == q
  {
    assert (x / p) * p + x % p == x;
    Multiples(x / p, q, p);
  }

  lemma ModWraps(c: int, r: int, k: int)
    requires r > 0
    ensures (c + k * r) % r == c % r
  {
    var x := c + k * r;
    assert x == (x / r) * r + x % r && c == (c / r) * r + c % r;
    assert (c / r + k) * r == (c / r) * r + k * r;
    DivIs(x, r, c / r + k);
  }

  /** The first of `first`, `first + w`, `first - w`, `first + 2 * w`, ... that comes after `now`. */
  function NextAfter(first: int, w: int, now: int): int
    requires w > 0
  {
    first + w * ((now - first) / w + 1)
  }

  lemma NextAfterIs(first: int, w: int, now: int) returns (k: int)
    requires w > 0
    ensures NextAfter(first, w, now) == first + k * w && now < NextAfter(first, w, now) <= now + w
  {
    k := (now - first) / w + 1;
    assert now - first == w * ((now - first) / w) + (now - first) % w;
    assert w * k == w * ((now - first) / w) + w;
    assert k * w == w * k;
  }

  lemma NextAfterIsUnique(m: int, first: int, w: int, now: int, k: int)
    requires w > 0 && m == first + k * w && now < m <= now + w
    ensures m == NextAfter(first, w, now)
  {
    var j := NextAfterIs(first, w, now);
    hide NextAfter;
    Multiples(k, j, w);
  }

  lemma NoneBetween(first: int, w: int, now: int, n: int, j: int)
    requires w > 0 && n == first + j * w && now < n
    ensures NextAfter(first, w, now) <= n
  {
    var k := NextAfterIs(first, w, now);
    hide NextAfter;
    Multiples(k, j, w);
  }

  lemma SameProgression(first: int, w: int, now: int, k: int)
    requires w > 0
    ensures NextAfter(first + k * w, w, now) == NextAfter(first, w, now)
  {
    var j := NextAfterIs(first, w, now);
    assert (j - k) * w == j * w - k * w;
    NextAfterIsUnique(NextAfter(first, w, now), first + k * w, w, now, j - k);
  }

  /** Found by adding `w` until the time is later than `now`. */
  method AddUntilAfter(first: int, w: int, now: int) returns (m: int)
    requires w > 0 && first <= now + w
    ensures m == NextAfter(first, w, now)
  {
    hide NextAfter;
    m := first;
    ghost var k := 0;
    while m <= now
      invariant m == first + k * w && m <= now + w
      decreases now - m
    {
      assert (k + 1) * w == k * w + w;
      m := m + w;
      k := k + 1;
    }
    NextAfterIsUnique(m, first, w, now, k);
  }
}
