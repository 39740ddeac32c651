/** The hash of a name in closed form: the names that share a bucket, without running the loop. */
module Hashing {
  import opened Common
  import opened Symbols

  function Power(b: nat, n: nat): (r: nat)
    ensures b > 0 ==> r > 0
  {
    if n == 0 then 1 else b * Power(b, n - 1)
  }

  /** The characters from `i` on, each times 33 to the number of characters behind it. */
  function Weighted(key: string, i: nat): nat
    requires i <= |key|
    decreases |key| - i
  {
    if i == |key| then 0 else key[i] as nat * Power(33, |key| - 1 - i) + Weighted(key, i + 1)
  }

  /** Reducing a summand and a factor first makes no difference to what is left in the end. */
  lemma ReduceFirst(x: int, k: int, y: int, m: nat)
    requires m > 0
    ensures (x % m * k + y) % m == (x * k + y) % m
  {
    var d := x / m;
    assert x == d * m + x % m;
    assert x * k + y == x % m * k + y + d * k * m;
    Multiples(x % m * k + y, d * k, m);
  }

  lemma Multiples(z: int, d: int, m: nat)
    requires m > 0
    ensures (z + d * m) % m == z % m
  {
    var p, q := z / m, (z + d * m) / m;
    Splits(z, m);
    Splits(z + d * m, m);
    assert (q - p - d) * m == q * m - p * m - d * m;
    if q - p - d != 0 {
      LargeMultiple(q - p - d, m);
    }
  }

  lemma Turn(hash: nat, key: string, next: nat)
    requires key != [] && next == (hash * 33 + key[0] as nat) % WORD
    ensures HashFrom(hash, key) == HashFrom(next, key[1..])
  {
  }

  /** One turn, with what is left of the name to come. */
  lemma Distribute(hash: nat, c: nat, k: nat, w: nat, m: nat)
    requires m > 0
    ensures ((hash * 33 + c) % m * k + w) % m == (hash * (33 * k) + (c * k + w)) % m
  {
    ReduceFirst(hash * 33 + c, k, w, m);
    assert (hash * 33 + c) * k == hash * 33 * k + c * k;
    assert hash * 33 * k == hash * (33 * k);
  }

  /** The loop from any value and any place on. */
  lemma {:induction false} LoopSum(hash: nat, key: string, i: nat)
    requires i <= |key| && hash < WORD
    ensures HashFrom(hash, key[i..]) == (hash * Power(33, |key| - i) + Weighted(key, i)) % WORD
    decreases |key| - i
  {
    hide HashFrom;
    if i == |key| {
      Ended(hash);
    } else {
      var c, k := key[i] as nat, Power(33, |key| - 1 - i);
      var next := (hash * 33 + c) % WORD;
      assert key[i..][0] == key[i] && key[i..][1..] == key[i + 1..];
      Turn(hash, key[i..], next);
      LoopSum(next, key, i + 1);
      Distribute(hash, c, k, Weighted(key, i + 1), WORD);
    }
  }

  lemma {:induction false} PowerAdd(b: nat, m: nat, n: nat)
    ensures Power(b, m + n) == Power(b, m) * Power(b, n)
    decreases m
  {
    if m > 0 {
      PowerAdd(b, m - 1, n);
      assert b * (Power(b, m - 1) * Power(b, n)) == b * Power(b, m - 1) * Power(b, n);
    }
  }

  /** The loop's arithmetic is that of a 64-bit word. */
  lemma WordIs()
    ensures WORD == Power(2, 64)
  {
    PowerAdd(2, 8, 8);
    PowerAdd(2, 16, 16);
    PowerAdd(2, 32, 32);
  }

  /**
    The bucket of a name of n characters: 5381 times 33 to the n, and every character times 33 to
    the number of characters behind it, added up, reduced to 64 bits, and that modulo 100.
   */
  lemma HashIs(key: string)
    ensures Hash(key) == (5381 * Power(33, |key|) + Weighted(key, 0)) % Power(2, 64) % 100
  {
    WordIs();
    assert key[0..] == key;
    LoopSum(5381, key, 0);
  }

  /** Two names whose hashes outgrow 32 bits, where they would meet: they are in different buckets. */
  lemma WideNames()
    ensures Hash("width") == 49 && Hash("last") == 41
  {
    hide HashFrom;
    var x, y := "width", "last";
    assert x[1..][1..][1..][1..][1..] == "" && y[1..][1..][1..][1..] == "";
    Turn(5381, x, 177692);
    Turn(177692, x[1..], 5863941);
    Turn(5863941, x[1..][1..], 193510153);
    Turn(193510153, x[1..][1..][1..], 6385835165);
    Turn(6385835165, x[1..][1..][1..][1..], 210732560549);
    Turn(5381, y, 177681);
    Turn(177681, y[1..], 5863570);
    Turn(5863570, y[1..][1..], 193497925);
    Turn(193497925, y[1..][1..][1..], 6385431641);
    Ended(210732560549);
    Ended(6385431641);
  }

  lemma Ended(hash: nat)
    ensures HashFrom(hash, "") == hash
  {
  }
}
