/**
 * The store's key-to-line mapping: a polynomial rolling hash with base 31 and
 * modulus 1000000009, whose value is used directly as a 1-based line number.
 */
module HashIndex {

  const P: int := 31
  const M: int := 1000000009

  /** The weight of one character, `ord(c) - ord('A') + 1`; negative below '@'. */
  function Term(c: char): int {
    c as int - 'A' as int + 1
  }

  /** `p_pow` after `i` turns of the loop. */
  function PowMod(i: nat): int {
    if i == 0 then 1 else PowMod(i - 1) * P % M
  }

  /** `hash_value` after the loop has consumed the first `n` characters of `key`. */
  function HashPrefix(key: string, n: nat): (h: int)
    requires n <= |key|
    ensures 0 <= h < M
  {
    if n == 0 then 0 else (HashPrefix(key, n - 1) + Term(key[n - 1]) * PowMod(n - 1)) % M
  }

  /** The line number a key is stored at. */
  function HashOf(key: string): (h: int)
    ensures 0 <= h < M
    ensures key == [] ==> h == 0
  {
    HashPrefix(key, |key|)
  }

  function Pow(b: int, e: nat): int {
    if e == 0 then 1 else b * Pow(b, e - 1)
  }

  /** The polynomial the hash reduces: the sum of `Term(key[j]) * 31^j` for `j < n`, in unbounded integers. */
  function PolySum(key: string, n: nat): int
    requires n <= |key|
  {
    if n == 0 then 0 else PolySum(key, n - 1) + Term(key[n - 1]) * Pow(P, n - 1)
  }

  /** Adding a multiple of the modulus does not change the residue. */
  lemma ModShift(x: int, k: int)
    ensures (x + k * M) % M == x % M
  {
    var q, r := x / M, x % M;
    assert x + k * M == (q + k) * M + r;
  }

  /** Reducing one summand first gives the same residue. */
  lemma ModAdd(a: int, b: int)
    ensures (a % M + b) % M == (a + b) % M
  {
    ModShift(a % M + b, a / M);
  }

  /** Reducing one factor first gives the same residue. */
  lemma ModMul(a: int, b: int)
    ensures a * (b % M) % M == a * b % M
  {
    var q := b / M;
    assert b == q * M + b % M;
    assert a * b == a * (b % M) + (a * q) * M by {
      assert a * b == a * (q * M + b % M);
    }
    ModShift(a * (b % M), a * q);
  }

  /** `p_pow` is `31^i mod m`. */
  lemma {:induction false} PowModIsPow(i: nat)
    ensures PowMod(i) == Pow(P, i) % M
  {
    if i > 0 {
      PowModIsPow(i - 1);
      var x := Pow(P, i - 1);
      calc {
        PowMod(i);
        (x % M) * P % M;
        { ModMul(P, x); }
        P * x % M;
      }
    }
  }

  /** One turn of the loop on residues agrees with the same turn on unreduced values. */
  lemma StepResidue(s: int, t: int, x: int)
    ensures (s % M + t * (x % M)) % M == (s + t * x) % M
  {
    calc {
      (s % M + t * (x % M)) % M;
      { ModAdd(s, t * (x % M)); }
      (s + t * (x % M)) % M;
      { ModAdd(t * (x % M), s); }
      (t * (x % M) % M + s) % M;
      { ModMul(t, x); }
      (t * x % M + s) % M;
      { ModAdd(t * x, s); }
      (t * x + s) % M;
    }
  }

  /**
   * The rolling hash is the polynomial of the key's character weights, reduced
   * once at the end, whatever the signs of the weights.
   */
  lemma {:induction false} HashIsPolynomial(key: string, n: nat)
    requires n <= |key|
    ensures HashPrefix(key, n) == PolySum(key, n) % M
  {
    if n > 0 {
      HashIsPolynomial(key, n - 1);
      PowModIsPow(n - 1);
      StepResidue(PolySum(key, n - 1), Term(key[n - 1]), Pow(P, n - 1));
    }
  }
}
