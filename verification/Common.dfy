/** Datatypes and list facts shared by every part of the model. */
module Common {

  datatype Option<+T> = None | Some(value: T)

  /** Quotient of the C operator `/`: truncation toward zero. */
  function CDiv(a: int, b: int): int
    requires b != 0
  {
    if a >= 0 then
      if b > 0 then a / b else -(a / -b)
    else
      if b > 0 then -(-a / b) else -a / -b
  }

  /** Remainder of the C operator `%`: it has the sign of the dividend. */
  function CMod(a: int, b: int): int
    requires b != 0
  {
    a - CDiv(a, b) * b
  }

  /** Truncating division commutes with negation of the dividend; flooring division does not. */
  lemma CDivNegate(a: int, b: int)
    requires b != 0
    ensures CDiv(-a, b) == -CDiv(a, b)
  {
    if a == 0 {
      assert CDiv(0, b) == 0;
    }
  }

  function Abs(a: int): int {
    if a < 0 then -a else a
  }

  /** `r` can be left over when `a` is divided by `b`: smaller than `b`, and of the sign of `a`. */
  predicate Remains(a: int, b: int, r: int) {
    -Abs(b) < r < Abs(b) && (r == 0 || (r < 0 <==> a < 0))
  }

  /** The quotient is the one number that leaves a remainder smaller than `b` with the sign of `a`. */
  lemma CDivExact(a: int, b: int, q: int)
    requires b != 0
    ensures CDiv(a, b) == q <==> Remains(a, b, a - q * b)
  {
    CDivRemains(a, b);
    OneQuotient(a, b, CDiv(a, b), q);
  }

  /** Two remainders of `a` are less than `b` apart, so they come of the same quotient. */
  lemma OneQuotient(a: int, b: int, p: int, q: int)
    requires Remains(a, b, a - p * b)
    ensures Remains(a, b, a - q * b) ==> p == q
  {
    if p != q {
      LargeMultiple(p - q, b);
      assert (p - q) * b == p * b - q * b;
    }
  }

  lemma CDivRemains(a: int, b: int)
    requires b != 0
    ensures Remains(a, b, a - CDiv(a, b) * b)
  {
    var x, y := Abs(a), Abs(b);
    assert x == x / y * y + x % y;
    assert CDiv(a, b) == if (a < 0) == (b < 0) then x / y else -(x / y);
    assert CDiv(a, b) * b == if a < 0 then -(x / y * y) else x / y * y;
  }

  lemma LargeMultiple(k: int, b: int)
    requires k != 0
    ensures Abs(k * b) >= Abs(b)
  {
    assert Abs(k * b) == Abs(k) * Abs(b);
    assert (Abs(k) - 1) * Abs(b) >= 0;
  }

  /** The remainder is the one number with the sign of `a` that is smaller than `b` and leaves a multiple of `b`. */
  lemma CModExact(a: int, b: int, r: int)
    requires b != 0
    ensures CMod(a, b) == r <==> Remains(a, b, r) && (a - r) % b == 0
  {
    CDivRemains(a, b);
    Divides(CDiv(a, b), b);
    if (a - r) % b == 0 {
      Splits(a - r, b);
      CDivExact(a, b, (a - r) / b);
    }
  }

  lemma Splits(x: int, b: int)
    requires b != 0
    ensures x == x / b * b + x % b && 0 <= x % b < Abs(b)
  {
  }

  /** A multiple of `b` leaves nothing. */
  lemma Divides(q: int, b: int)
    requires b != 0
    ensures q * b % b == 0
  {
    var d := q * b / b;
    Splits(q * b, b);
    assert (q - d) * b == q * b - d * b;
    if q != d {
      LargeMultiple(q - d, b);
    }
  }

  /** What `% 2` leaves: 1 with the sign of an odd number, 0 for an even one. */
  lemma CModOdd(a: int)
    ensures CMod(a, 2) == if a % 2 == 0 then 0 else if a < 0 then -1 else 1
  {
    CModExact(a, 2, CMod(a, 2));
  }

  // ---------- counting ----------

  function Below(n: nat): (s: set<int>)
    ensures |s| == n
    ensures forall k :: k in s <==> 0 <= k < n
  {
    if n == 0 then {} else Below(n - 1) + {n - 1}
  }

  lemma CardLess(a: set<int>, b: set<int>)
    requires a <= b
    ensures |a| <= |b|
  {
    assert b == a + (b - a) && a * (b - a) == {};
  }

  /** Different numbers below `m` are at most `m`. */
  lemma Pigeons(holes: seq<int>, m: nat)
    requires forall k :: 0 <= k < |holes| ==> 0 <= holes[k] < m
    requires forall j, k :: 0 <= j < k < |holes| ==> holes[j] != holes[k]
    ensures |holes| <= m
  {
    hide Below;
    SetOfDistinct(holes);
    CardLess((set h | h in holes), Below(m));
  }

  lemma {:induction false} SetOfDistinct(s: seq<int>)
    requires forall j, k :: 0 <= j < k < |s| ==> s[j] != s[k]
    ensures |set h | h in s| == |s|
    decreases |s|
  {
    var n := |s| - 1;
    if s == [] {
      assert (set h | h in s) == {};
    } else {
      SetOfDistinct(s[..n]);
      assert (set h | h in s) == (set h | h in s[..n]) + {s[n]};
    }
  }
}
