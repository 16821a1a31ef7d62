/** 64-bit words as natural numbers: wrap-around, the `&` operator and powers of two. */
module Words {

  const TWO64: nat := 0x1_0000_0000_0000_0000
  const TWO63: nat := 0x8000_0000_0000_0000

  /** The value a `size_t` or `uint64_t` keeps of an exact result. */
  function Word(x: nat): nat {
    x % TWO64
  }

  lemma WordExact(x: nat)
    requires x < TWO64
    ensures Word(x) == x
  {
  }

  function BitAnd(a: nat, b: nat): nat {
    if a == 0 || b == 0 then 0
    else (if a % 2 == 1 && b % 2 == 1 then 1 else 0) + 2 * BitAnd(a / 2, b / 2)
  }

  predicate IsPow2(n: nat) {
    n == 1 || (n > 1 && n % 2 == 0 && IsPow2(n / 2))
  }

  lemma MultiplesApart(a: nat, b: nat, m: nat)
    requires a > b
    ensures a * m >= b * m + m
  {
    assert a * m == b * m + m + (a - b - 1) * m;
  }

  lemma ModUnique(x: nat, m: nat, q: nat, r: nat)
    requires x == q * m + r && r < m
    ensures x % m == r
  {
    var q', r' := x / m, x % m;
    assert x == q' * m + r';
    if q > q' {
      MultiplesApart(q, q', m);
    } else if q' > q {
      MultiplesApart(q', q, m);
    }
  }

  /** One more bit on both sides of a remainder. */
  lemma ModDoubles(h: nat, p: nat)
    requires p > 0
    ensures h % (2 * p) == 2 * ((h / 2) % p) + h % 2
  {
    var q, r := (h / 2) / p, (h / 2) % p;
    assert h / 2 == q * p + r;
    assert q * (2 * p) == 2 * (q * p);
    ModUnique(h, 2 * p, q, 2 * r + h % 2);
  }

  /** Masking with a power of two minus one is reduction modulo that power. */
  lemma {:induction false} MaskIsMod(h: nat, n: nat)
    requires IsPow2(n)
    ensures BitAnd(h, n - 1) == h % n
    decreases n
  {
    if n > 1 {
      MaskIsMod(h / 2, n / 2);
      assert n == 2 * (n / 2) && (n - 1) / 2 == n / 2 - 1 && (n - 1) % 2 == 1;
      ModDoubles(h, n / 2);
      if h == 0 {
        ModUnique(h, n, 0, 0);
      }
    }
  }

  /** The only power of two above m and up to 2m is 2m. */
  lemma {:induction false} Pow2Gap(d: nat, m: nat)
    requires IsPow2(d) && IsPow2(m) && m < d <= 2 * m
    ensures d == 2 * m
    decreases d
  {
    if m > 1 {
      Pow2Gap(d / 2, m / 2);
    }
  }

  lemma Pow2Doubles(n: nat)
    requires IsPow2(n)
    ensures IsPow2(2 * n)
  {
  }

  /** `next_pow2`. The argument may not exceed 2^63: see `NextPow2Diverges`. */
  method NextPow2(value: nat) returns (n: nat)
    requires value <= TWO63
    ensures IsPow2(n) && 16 <= n < TWO64
    ensures value <= n && (n == 16 || n < 2 * value)
  {
    n := 16;
    while n < value
      invariant IsPow2(n) && 16 <= n < TWO64
      invariant n == 16 || n < 2 * value
      decreases value - n
    {
      Pow2Doubles(n);
      n := Word(2 * n);
    }
  }

  /** The value of `n` in `next_pow2` after i rounds. */
  function Doubled(i: nat): nat {
    if i == 0 then 16 else Word(2 * Doubled(i - 1))
  }

  lemma WordOfDouble(n: nat)
    requires n <= TWO63
    ensures n < TWO63 ==> Word(2 * n) == 2 * n
    ensures n == TWO63 ==> Word(2 * n) == 0
  {
  }

  /** Above 2^63 the loop guard holds in every round: doubling wraps to zero and stays there. */
  lemma {:induction false} NextPow2Diverges(value: nat, i: nat)
    requires value > TWO63
    ensures Doubled(i) < value
    ensures Doubled(i) == 0 || (IsPow2(Doubled(i)) && Doubled(i) <= TWO63)
  {
    if i == 0 {
      Times16(1);
    } else {
      hide Word;
      NextPow2Diverges(value, i - 1);
      var n := Doubled(i - 1);
      WordOfDouble(n);
      if n > TWO63 / 2 {
        Pow2Is62();
        Pow2Gap(n, TWO63 / 2);
        assert Doubled(i) == 0;
      } else if n > 0 {
        Pow2Doubles(n);
        assert Doubled(i) == 2 * n;
      } else {
        assert Doubled(i) == 0;
      }
    }
  }

  lemma Pow2Is62()
    ensures IsPow2(TWO63 / 2)
  {
    assert IsPow2(0x10);
    assert IsPow2(0x100);
    assert IsPow2(0x1000);
    assert IsPow2(0x1_0000);
    assert IsPow2(0x1_0000_0000) by {
      Times16(0x1_0000); Times16(0x10_0000); Times16(0x100_0000); Times16(0x1000_0000);
    }
    Times16(0x1_0000_0000); Times16(0x10_0000_0000); Times16(0x100_0000_0000); Times16(0x1000_0000_0000);
    Times16(0x1_0000_0000_0000); Times16(0x10_0000_0000_0000); Times16(0x100_0000_0000_0000);
    assert IsPow2(0x1000_0000_0000_0000);
    Pow2Doubles(0x1000_0000_0000_0000);
    Pow2Doubles(0x2000_0000_0000_0000);
  }

  lemma Times16(n: nat)
    requires IsPow2(n)
    ensures IsPow2(16 * n)
  {
    Pow2Doubles(n);
    Pow2Doubles(2 * n);
    Pow2Doubles(4 * n);
    Pow2Doubles(8 * n);
  }
}
