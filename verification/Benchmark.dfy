/** The grading service's speed benchmark: a loop that looks for prime numbers until it has found enough
    of them.  That it ends at all needs a prime above every bound. */
module Benchmark {

  ghost predicate IsPrime(n: nat) {
    n >= 2 && forall d | 2 <= d < n :: n % d != 0
  }

  /** How many primes there are below `n`. */
  ghost function PrimesBelow(n: nat): nat {
    if n == 0 then 0 else PrimesBelow(n - 1) + if IsPrime(n - 1) then 1 else 0
  }

  /** `p` is the `k`-th prime, counted from one. */
  ghost predicate IsNthPrime(k: nat, p: nat) {
    IsPrime(p) && PrimesBelow(p) == k - 1
  }

  // ---------------------------------------------------------------- a prime above every bound

  function Factorial(n: nat): (f: nat)
    ensures f >= 1
  {
    if n == 0 then 1 else n * Factorial(n - 1)
  }

  lemma Remainder(d: nat, k: nat, r: nat)
    requires r < d
    ensures (d * k + r) % d == r
  {
    var n := d * k + r;
    var q := n / d;
    assert n == d * q + n % d;
    assert d * (k - q) == n % d - r && d * (q - k) == r - n % d;
    if k > q {
      Grows(d, 1, k - q);
    } else if k < q {
      Grows(d, 1, q - k);
    }
  }

  lemma Grows(d: nat, i: nat, j: nat)
    requires i <= j
    ensures d * i <= d * j
  {
    assert d * j - d * i == d * (j - i);
  }

  /** Every number up to `n` divides its factorial. */
  lemma {:induction false} FactorialIsMultiple(n: nat, d: nat) returns (k: nat)
    requires 1 <= d <= n
    ensures Factorial(n) == d * k
  {
    if d == n {
      k := Factorial(n - 1);
    } else {
      var j := FactorialIsMultiple(n - 1, d);
      k := n * j;
      assert n * (d * j) == d * (n * j);
    }
  }

  /** The smallest divisor above one is prime. */
  lemma SmallestDivisor(n: nat) returns (p: nat)
    requires n >= 2
    ensures IsPrime(p) && p <= n && n % p == 0
  {
    p := 2;
    Remainder(n, 1, 0);
    while n % p != 0
      invariant 2 <= p <= n
      invariant forall d | 2 <= d < p :: n % d != 0
      decreases n - p
    {
      p := p + 1;
    }
    forall d | 2 <= d < p ensures p % d != 0 {
      if p % d == 0 {
        DividesFurther(d, p, n);
      }
    }
  }

  lemma DividesFurther(d: nat, p: nat, n: nat)
    requires d > 0 && p > 0 && p % d == 0 && n % p == 0
    ensures n % d == 0
  {
    var i, j := p / d, n / p;
    assert n == p * j && p == d * i;
    assert n == d * (i * j);
    Remainder(d, i * j, 0);
  }

  /** Euclid: some prime is at least `n`. */
  lemma PrimeAbove(n: nat) returns (p: nat)
    ensures IsPrime(p) && p >= n
  {
    var m := Factorial(n) + 1;
    p := SmallestDivisor(m);
    if p < n {
      var k := FactorialIsMultiple(n, p);
      Remainder(p, k, 1);
    }
  }

  lemma SomePrimeAbove(n: nat)
    ensures exists p: nat :: IsPrime(p) && p >= n
  {
    var p := PrimeAbove(n);
  }

  /** The first prime that is not below `n`. */
  ghost function NextPrime(n: nat): (p: nat)
    ensures IsPrime(p) && p >= n
    ensures forall q | n <= q < p :: !IsPrime(q)
  {
    SomePrimeAbove(n);
    var bound: nat :| IsPrime(bound) && bound >= n;
    FirstPrime(n, bound)
  }

  ghost function FirstPrime(n: nat, bound: nat): (p: nat)
    requires IsPrime(bound) && bound >= n
    ensures IsPrime(p) && n <= p <= bound
    ensures forall q | n <= q < p :: !IsPrime(q)
    decreases bound - n
  {
    if IsPrime(n) then n else FirstPrime(n + 1, bound)
  }

  // ---------------------------------------------------------------- the benchmark

  /** The trial division. */
  method TestPrime(currentPrime: nat) returns (isPrime: bool)
    requires currentPrime >= 2
    ensures isPrime <==> IsPrime(currentPrime)
  {
    isPrime := true;
    var divider := 2;
    while divider < currentPrime
      invariant 2 <= divider <= currentPrime
      invariant isPrime && forall d | 2 <= d < divider :: currentPrime % d != 0
    {
      isPrime := currentPrime % divider > 0;
      if !isPrime {
        break;
      }
      divider := divider + 1;
    }
  }

  /** The loop of estimatePerformanceRating: for any number of primes wanted it ends just behind
      the last of them. */
  method FindPrimes(maxPrimesCount: nat) returns (currentPrime: nat)
    ensures PrimesBelow(currentPrime) == maxPrimesCount
    ensures maxPrimesCount > 0 ==> IsNthPrime(maxPrimesCount, currentPrime - 1)
    ensures maxPrimesCount == 0 ==> currentPrime == 2
  {
    currentPrime := 2;
    var primesFound := 0;
    assert PrimesBelow(2) == 0;
    while primesFound < maxPrimesCount
      invariant currentPrime >= 2 && primesFound == PrimesBelow(currentPrime) <= maxPrimesCount
      invariant primesFound > 0 && primesFound == maxPrimesCount ==> IsPrime(currentPrime - 1)
      invariant maxPrimesCount == 0 ==> currentPrime == 2
      decreases maxPrimesCount - primesFound, NextPrime(currentPrime) - currentPrime
    {
      ghost var next := NextPrime(currentPrime);
      var isPrime := TestPrime(currentPrime);
      if isPrime {
        primesFound := primesFound + 1;
      } else {
        NextPrimeStays(currentPrime);
      }
      currentPrime := currentPrime + 1;
    }
  }

  const MAX_PRIMES_COUNT := 20000

  /** estimatePerformanceRating, without its stopwatch. */
  method RunBenchmark() returns (lastPrime: nat)
    ensures MAX_PRIMES_COUNT == 20000 && IsNthPrime(MAX_PRIMES_COUNT, lastPrime)
  {
    var currentPrime := FindPrimes(MAX_PRIMES_COUNT);
    lastPrime := currentPrime - 1;
  }

  lemma NextPrimeStays(n: nat)
    requires !IsPrime(n)
    ensures NextPrime(n + 1) == NextPrime(n)
  {
    var p, q := NextPrime(n), NextPrime(n + 1);
    assert p > n && q > n;
  }

  /** The number that the benchmark counts to is well defined: there is one N-th prime. */
  lemma {:induction false} NthPrimeIsUnique(k: nat, p: nat, q: nat)
    requires IsNthPrime(k, p) && IsNthPrime(k, q)
    ensures p == q
  {
    if p < q {
      PrimesBelowGrows(p + 1, q);
    } else if q < p {
      PrimesBelowGrows(q + 1, p);
    }
  }

  lemma {:induction false} PrimesBelowGrows(m: nat, n: nat)
    requires m <= n
    ensures PrimesBelow(m) <= PrimesBelow(n)
  {
    if m < n {
      PrimesBelowGrows(m, n - 1);
    }
  }
}
