/** The percentages of the report: `round(x / total, 2) * 100`, read as the whole
    percentage nearest to `100 * x / total`, ties going to the even neighbour as Python's
    `round` does. */
module Rounding {
  import opened Errors

  /** `round(n / d)` for a positive `d`: the nearest integer, halves to the even one. */
  function RoundHalfEven(n: int, d: int): (r: int)
    requires d > 0
    ensures 2 * (n - r * d) <= d && 2 * (r * d - n) <= d
    ensures 2 * (n - r * d) == d || 2 * (r * d - n) == d ==> r % 2 == 0
  {
    var q, m := n / d, n % d;
    assert n == q * d + m && 0 <= m < d;
    assert (q + 1) * d == q * d + d;
    if 2 * m < d then q
    else if 2 * m > d then q + 1
    else if q % 2 == 0 then q else q + 1
  }

  /** The nearest integer, with ties to the even one, is the only integer that is that. */
  lemma RoundUnique(n: int, d: int, r: int)
    requires d > 0
    requires 2 * (n - r * d) <= d && 2 * (r * d - n) <= d
    requires 2 * (n - r * d) == d || 2 * (r * d - n) == d ==> r % 2 == 0
    ensures r == RoundHalfEven(n, d)
  {
    var h := RoundHalfEven(n, d);
    var a, b := n - r * d, n - h * d;
    Scale(h - r, d);
    assert (h - r) * d == a - b by { Distribute(h, r, d); }
  }

  /** A multiple of `d` within `d` of zero is `-d`, `0` or `d`. */
  lemma Scale(e: int, d: int)
    requires d > 0
    ensures -d <= e * d <= d ==> -1 <= e <= 1
    ensures e * d == d ==> e == 1
    ensures e * d == -d ==> e == -1
    ensures e * d == 0 ==> e == 0
  {
    if e >= 2 {
      MulAtLeast(e, 2, d);
    } else if e <= -2 {
      MulAtMost(e, -2, d);
    }
  }

  lemma MulAtLeast(e: int, k: int, d: int)
    requires e >= k && d > 0
    ensures e * d >= k * d
  {
    assert e * d == k * d + (e - k) * d;
  }

  lemma MulAtMost(e: int, k: int, d: int)
    requires e <= k && d > 0
    ensures e * d <= k * d
  {
    assert k * d == e * d + (k - e) * d;
  }

  lemma Distribute(h: int, r: int, d: int)
    ensures (h - r) * d == h * d - r * d
  {
  }

  /** `round(x / total, 2) * 100` as a whole percentage. */
  function Pc(x: nat, total: nat): (r: int)
    requires total > 0
    ensures 2 * (100 * x - r * total) <= total && 2 * (r * total - 100 * x) <= total
  {
    RoundHalfEven(100 * x, total)
  }

  /** A part of the total is between 0 and 100 percent of it, and the rounding is off by
      at most half a percentage point. */
  lemma PcBounds(x: nat, total: nat)
    requires 0 < total && x <= total
    ensures 0 <= Pc(x, total) <= 100
    ensures 2 * (100 * x - Pc(x, total) * total) <= total
    ensures 2 * (Pc(x, total) * total - 100 * x) <= total
  {
    var r := Pc(x, total);
    if r < 0 {
      MulAtMost(r, -1, total);
    } else if r > 100 {
      MulAtLeast(r, 101, total);
    }
  }

  /** The percentages of the two parts of a total add up to exactly 100. */
  lemma PcComplement(x: nat, y: nat)
    requires x + y > 0
    ensures Pc(x, x + y) + Pc(y, x + y) == 100
  {
    var t := x + y;
    var r := Pc(x, t);
    assert 100 * y - (100 - r) * t == r * t - 100 * x;
    RoundUnique(100 * y, t, 100 - r);
  }

  /** A larger part never gets a smaller percentage. */
  lemma PcMonotone(x: nat, y: nat, total: nat)
    requires total > 0 && x <= y
    ensures Pc(x, total) <= Pc(y, total)
  {
    var rx, ry := Pc(x, total), Pc(y, total);
    if rx > ry {
      MulAtLeast(rx - ry, 1, total);
      Distribute(rx, ry, total);
    }
  }

  /** An exact percentage is not rounded. */
  lemma PcExact(x: nat, total: nat, p: int)
    requires total > 0 && p * total == 100 * x
    ensures Pc(x, total) == p
  {
    RoundUnique(100 * x, total, p);
  }

  /** The same percentage where Python would divide by zero: ZeroDivisionError. */
  function Percent(x: nat, total: nat): (r: Result<int>)
    ensures r.Failure? <==> total == 0
    ensures r.Failure? ==> r.error == ZeroDivision
    ensures r.Success? ==> r.value == Pc(x, total)
  {
    if total == 0 then Failure(ZeroDivision) else Success(Pc(x, total))
  }
}
