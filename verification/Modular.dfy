/** Quotients and remainders by a variable divisor. */
module Modular {

  lemma Unique(x: int, c: int, q: int, r: int)
    requires 0 <= r < c && x == c * q + r
    ensures x / c == q && x % c == r
  {
    var d := x / c - q;
    assert c * d == r - x % c;
    Multiple(c, d);
  }

  lemma {:induction false} NonNegative(a: nat, b: nat)
    ensures a * b >= 0
  {
    if b > 0 {
      NonNegative(a, b - 1);
      assert a * b == a * (b - 1) + a;
    }
  }

  lemma Multiple(c: int, d: int)
    requires c > 0
    ensures d > 0 ==> c * d >= c
    ensures d < 0 ==> c * d <= -c
    ensures d == 0 ==> c * d == 0
  {
    if d > 0 {
      NonNegative(c, d - 1);
      assert c * d == c * (d - 1) + c;
    } else if d < 0 {
      NonNegative(c, -d - 1);
      assert c * d == -(c * (-d - 1)) - c;
    }
  }

  lemma Monotone(a: int, b: int, d: int)
    requires a <= b && d >= 0
    ensures a * d <= b * d
  {
    NonNegative(b - a, d);
    assert b * d - a * d == (b - a) * d;
  }

  lemma Small(x: int, c: int)
    requires 0 <= x < c
    ensures x / c == 0 && x % c == x
  {
    Unique(x, c, 0, x);
  }

  lemma Enclosed(x: int, c: int)
    requires c > 0
    ensures x / c * c <= x < (x / c + 1) * c
  {
    assert x == c * (x / c) + x % c;
  }

  lemma Next(x: int, c: int)
    requires c > 0
    ensures (x % c + 1) % c == (x + 1) % c
  {
    AddMod(x, 1, c);
  }

  /** The k-th place behind the last of n items written cyclically. */
  lemma Behind(n: int, c: int, k: int)
    requires c > 0
    ensures ((n - 1) % c + 1 + k) % c == (n - c + k) % c
  {
    AddMod(n - 1, 1 + k, c);
    Shift(n - c + k, c, 1);
  }

  lemma QuotientBelow(x: nat, c: int)
    requires c > 0
    ensures 0 <= x / c <= x
  {
    assert x == c * (x / c) + x % c;
    Multiple(c, x / c);
    if x / c > 0 {
      Monotone(1, c, x / c);
    }
  }

  lemma Shift(x: int, c: int, k: int)
    requires c > 0
    ensures (x + c * k) % c == x % c && (x + c * k) / c == x / c + k
  {
    assert x + c * k == c * (x / c + k) + x % c;
    Unique(x + c * k, c, x / c + k, x % c);
  }

  /** Remainders may be taken early. */
  lemma AddMod(x: int, y: int, c: int)
    requires c > 0
    ensures (x % c + y) % c == (x + y) % c
  {
    Shift(x % c + y, c, x / c);
    assert x % c + y + c * (x / c) == x + y;
  }

  lemma Distinct(x: int, y: int, c: int)
    requires c > 0 && x < y < x + c
    ensures x % c != y % c
  {
    if x % c == y % c {
      assert y - x == c * (y / c - x / c);
      Small(y - x, c);
      Shift(0, c, y / c - x / c);
    }
  }

  /** Equal remainders stay equal when the same number is added, and conversely. */
  lemma Cancel(x: int, y: int, z: int, c: int)
    requires c > 0
    ensures (x + z) % c == (y + z) % c <==> x % c == y % c
  {
    if (x + z) % c == (y + z) % c {
      AddMod(x + z, -z, c);
      AddMod(y + z, -z, c);
      assert x == (x + z) + -z && y == (y + z) + -z;
    }
    if x % c == y % c {
      AddMod(x, z, c);
      AddMod(y, z, c);
    }
  }
}
