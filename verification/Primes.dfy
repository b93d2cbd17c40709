/** The prime count of labs/lab9/prime_kmod.c, in 32-bit ints that wrap around, as the kernel
    compiles them. Up to `SAFE` no product wraps. From there to `LAST` the root loop stops late, and
    above that it never does.
  */
module Primes {
  import opened Basics

  const INT_MIN := -0x8000_0000

  /** A result of int arithmetic. */
  function Wrap(x: int): int {
    (x - INT_MIN) % UINT + INT_MIN
  }

  /** The largest root whose square is an int, and that square. */
  const SAFE_ROOT := 46340
  const SAFE := 2_147_395_600

  /** The largest int that a square can wrap to, and a number that has that square. */
  const LAST := 2_147_483_641
  const LAST_ROOT := 593_968_971

  function Abs(n: int): nat {
    if n < 0 then -n else n
  }

  ghost predicate IsPrime(n: int) {
    n >= 2 && forall d :: 2 <= d < n ==> n % d != 0
  }

  function RootFrom(i: int, n: int): int
    requires i >= 1
    decreases n - i
  {
    if i * i < n then
      SquareGrows(i);
      RootFrom(i + 1, n)
    else i
  }

  function Root(n: int): int {
    RootFrom(1, n)
  }

  /** The test of the root loop fails at `r`. */
  predicate Halts(num: int, r: int) {
    r >= 1 && Wrap(r * r) >= num
  }

  /** The root loop ends. */
  ghost predicate Stops(num: int) {
    exists r :: Halts(num, r)
  }

  /** Where it ends. */
  ghost predicate FirstHalt(num: int, r: int) {
    Halts(num, r) && forall q :: 1 <= q < r ==> !Halts(num, q)
  }

  /** `Wrap` gives the int that is the same modulo 2^32. */
  lemma WrapMeans(x: int)
    ensures INT_MIN <= Wrap(x) <= INT_MAX && (x - Wrap(x)) % UINT == 0
  {
  }

  /** No divisor up to `r`: the test the second loop makes. */
  ghost predicate Passes(num: int, r: int) {
    num >= 2 && forall d :: 2 <= d <= r ==> num % d != 0
  }

  // -- The root ------------------------------------------------------------------------------

  lemma SquareGrows(i: int)
    requires i >= 1
    ensures i * i >= i
  {
  }

  lemma Square(a: int, b: int)
    requires 0 <= a <= b
    ensures a * a <= b * b
  {
    assert a * a <= a * b <= b * b;
  }

  /** The root is at most `r` exactly when the square of `r` reaches n. */
  lemma RootAtMost(n: int, r: int)
    requires r >= 1
    ensures Root(n) <= r <==> n <= r * r
  {
    RootIsLeast(n);
    if Root(n) <= r {
      Square(Root(n), r);
    }
  }

  lemma {:induction false} RootFromIsLeast(i: int, n: int)
    requires i >= 1 && forall q :: 1 <= q < i ==> q * q < n
    ensures RootFrom(i, n) >= i && RootFrom(i, n) * RootFrom(i, n) >= n
    ensures forall q :: 1 <= q < RootFrom(i, n) ==> q * q < n
    decreases n - i
  {
    if i * i < n {
      SquareGrows(i);
      RootFromIsLeast(i + 1, n);
    }
  }

  /** The least r >= 1 whose square reaches n. */
  lemma RootIsLeast(n: int)
    ensures Root(n) >= 1 && Root(n) * Root(n) >= n
    ensures forall q :: 1 <= q < Root(n) ==> q * q < n
  {
    RootFromIsLeast(1, n);
  }

  /** The loop forms the products 1*1 up to Root(n)*Root(n). */
  ghost predicate FormsOnlyInts(n: int) {
    forall i :: 1 <= i <= Root(n) ==> i * i <= INT_MAX
  }

  /** All of them are ints exactly up to 46340 squared. */
  lemma ProductsFit(n: int)
    ensures FormsOnlyInts(n) <==> n <= SAFE
  {
    RootIsLeast(n);
    RootAtMost(n, SAFE_ROOT);
    if n <= SAFE {
      forall i | 1 <= i <= Root(n) ensures i * i <= INT_MAX {
        Square(i, SAFE_ROOT);
      }
    } else {
      var i := SAFE_ROOT + 1;
      assert 1 <= i <= Root(n) && i * i > INT_MAX;
    }
  }

  // -- Where the loop ends in 32 bits --------------------------------------------------------

  const HALF := 0x4000_0000

  /** Squares repeat with period 2 * HALF, and every period is a mirror image of itself. */
  lemma Fold(r: int) returns (f: int)
    requires r >= 0
    ensures 0 <= f <= HALF && Wrap(f * f) == Wrap(r * r)
  {
    var q, a := r / (2 * HALF), r % (2 * HALF);
    Period(q, a);
    f := a;
    if a > HALF {
      f := 2 * HALF - a;
      Mirror(a);
    }
  }

  lemma WrapPlus(x: int, k: int)
    ensures Wrap(x + k * UINT) == Wrap(x)
  {
  }

  lemma Binomial(x: int, y: int)
    ensures (x + y) * (x + y) == x * x + 2 * (x * y) + y * y
  {
    assert (x + y) * (x + y) == x * (x + y) + y * (x + y);
    assert x * (x + y) == x * x + x * y && y * (x + y) == y * x + y * y;
  }

  /** (2 c q + a) squared is a squared but for a multiple of 4 c. */
  lemma Residue(c: int, q: int, a: int)
    ensures (2 * c * q + a) * (2 * c * q + a) == a * a + (4 * c) * (c * (q * q) + q * a)
  {
    var x := 2 * c * q;
    Binomial(x, a);
    assert x * x == 4 * (c * q) * (c * q) == 4 * c * (c * (q * q));
    assert 2 * (x * a) == 4 * c * (q * a);
    assert (4 * c) * (c * (q * q) + q * a) == (4 * c) * (c * (q * q)) + (4 * c) * (q * a);
  }

  lemma Period(q: int, a: int)
    ensures Wrap((2 * HALF * q + a) * (2 * HALF * q + a)) == Wrap(a * a)
  {
    Residue(HALF, q, a);
    WrapPlus(a * a, HALF * (q * q) + q * a);
  }

  lemma Mirror(a: int)
    ensures Wrap((2 * HALF - a) * (2 * HALF - a)) == Wrap(a * a)
  {
    Residue(HALF, 1, -a);
    WrapPlus((-a) * (-a), HALF * (1 * 1) + 1 * (-a));
    assert (-a) * (-a) == a * a;
  }

  /** If the loop ends at all, it ends by HALF, so the counter itself never wraps. */
  lemma HaltsByHalf(num: int) returns (r: int)
    requires Stops(num)
    ensures 1 <= r <= HALF && Halts(num, r)
  {
    var any :| Halts(num, any);
    r := Fold(any);
    if r == 0 {
      assert Wrap(1 * 1) == 1 && Wrap(0 * 0) == 0;
      r := 1;
    }
  }

  lemma NoWrap(q: int)
    requires 0 <= q <= SAFE_ROOT
    ensures Wrap(q * q) == q * q <= SAFE
  {
    Square(q, SAFE_ROOT);
  }

  /** The loop ends at the root exactly up to SAFE; for a larger int, if it ends, it ends later. */
  lemma EndsAtRootExactly(num: int, r: int)
    requires num <= INT_MAX && FirstHalt(num, r)
    ensures r == Root(num) <==> num <= SAFE
    ensures num > SAFE ==> Root(num) < r <= HALF < num
  {
    RootIsLeast(num);
    RootAtMost(num, SAFE_ROOT);
    if num <= SAFE {
      NoWrap(Root(num));
      assert Halts(num, Root(num));
      if r < Root(num) {
        NoWrap(r);
      }
    } else {
      if r <= SAFE_ROOT {
        NoWrap(r);
      }
      RootAtMost(num, SAFE_ROOT + 1);
      assert Wrap(46341 * 46341) < 0;
      var s := HaltsByHalf(num);
    }
  }

  /** The loop ends exactly up to LAST: squares are 0, 1, 4 or 9 modulo 16, and the six ints above
      it are 10 to 15. */
  lemma StopsExactly(num: int)
    requires num <= INT_MAX
    ensures Stops(num) <==> num <= LAST
  {
    if num <= LAST {
      assert Wrap(LAST_ROOT * LAST_ROOT) == LAST;
      assert Halts(num, LAST_ROOT);
    } else if Stops(num) {
      var r := HaltsByHalf(num);
      SquareModSixteen(r);
      AboveLast(r * r);
    }
  }

  lemma AboveLast(x: int)
    requires Wrap(x) > LAST
    ensures x % 16 > 9
  {
    var w := Wrap(x);
    WrapMeans(x);
    PlusSixteens(w, UINT / 16 * ((x - w) / UINT));
    assert w == 2147483642 || w == 2147483643 || w == 2147483644 || w == 2147483645 || w == 2147483646 || w == INT_MAX;
  }

  lemma SafeStops(num: int)
    requires num <= SAFE
    ensures Stops(num)
  {
    StopsExactly(num);
  }

  lemma NeverStops(num: int)
    requires LAST < num <= INT_MAX
    ensures forall r :: r >= 1 ==> Wrap(r * r) < num
  {
    StopsExactly(num);
    forall r | r >= 1 ensures Wrap(r * r) < num {
      assert !Halts(num, r);
    }
  }

  lemma SquareModSixteen(r: int)
    ensures (r * r) % 16 <= 9
  {
    var q, a := r / 8, r % 8;
    Residue(4, q, a);
    PlusSixteens(a * a, 4 * (q * q) + q * a);
    SmallSquare(a);
  }

  lemma PlusSixteens(x: int, k: int)
    ensures (x + 16 * k) % 16 == x % 16
  {
  }

  lemma SmallSquare(a: int)
    requires 0 <= a < 8
    ensures (a * a) % 16 <= 9
  {
    assert a == 0 || a == 1 || a == 2 || a == 3 || a == 4 || a == 5 || a == 6 || a == 7;
  }

  // -- Trial division up to the root ---------------------------------------------------------

  /** A composite has a divisor at most its root. */
  lemma SmallDivisor(n: int, d: int) returns (e: int)
    requires 2 <= d < n && n % d == 0
    ensures 2 <= e <= Root(n) && n % e == 0
  {
    RootIsLeast(n);
    var q := n / d;
    assert n == d * q;
    if d <= Root(n) {
      e := d;
    } else {
      e := q;
      CofactorAtLeastTwo(d, q);
      CofactorAtMost(Root(n), d, q);
      Multiple(d, q);
    }
  }

  lemma Times(a: int, b: int, c: int)
    requires a >= 0 && b <= c
    ensures a * b <= a * c
  {
  }

  lemma CofactorAtLeastTwo(d: int, q: int)
    requires d > 0 && d * q > d
    ensures q >= 2
  {
    if q < 2 {
      Times(d, q, 1);
    }
  }

  lemma CofactorAtMost(r: int, d: int, q: int)
    requires 0 <= r < d && d * q <= r * r
    ensures q <= r
  {
    if q > r {
      Times(d, r + 1, q);
      Times(r + 1, r + 1, d);
      Times(r, r, r + 1);
    }
  }

  lemma Multiple(d: int, q: int)
    requires q > 0
    ensures (d * q) % q == 0
  {
    var n := d * q;
    assert n == q * (n / q) + n % q;
    OnlyMultipleBelow(q, d - n / q, n % q);
  }

  lemma OnlyMultipleBelow(q: int, k: int, r: int)
    requires 0 <= r < q && q * k == r
    ensures r == 0
  {
    if k >= 1 {
      Times(q, 1, k);
    } else if k <= -1 {
      Times(q, k, -1);
    }
  }

  lemma RootBelow(n: int)
    requires n >= 3
    ensures Root(n) < n
  {
    assert (n - 1) * (n - 1) == n * (n - 2) + 1;
    Times(n, 1, n - 2);
    RootAtMost(n, n - 1);
  }

  /** Dividing by everything up to some number between the root and n decides primality. */
  lemma TrialDivision(n: int, r: int)
    requires Root(n) <= r < n
    ensures Passes(n, r) <==> IsPrime(n)
  {
    if Passes(n, r) && !IsPrime(n) {
      var d :| 2 <= d < n && n % d == 0;
      var e := SmallDivisor(n, d);
    }
    RootIsLeast(n);
  }

  /** What the test finds is exactly the primes other than 2, for every int for which it ends. */
  lemma PassesMeansOddPrime(n: int, r: int)
    requires n <= INT_MAX && FirstHalt(n, r)
    ensures Passes(n, r) <==> IsPrime(n) && n != 2
  {
    EndsAtRootExactly(n, r);
    if n == 2 {
      RootIsLeast(2);
      assert Root(2) == 2 by { assert 1 * 1 < 2; }
      assert n % 2 == 0;
    } else if n > 2 {
      RootBelow(n);
      TrialDivision(n, r);
    }
  }

  /** 2 is reported as not prime, because the root of 2 is 2 itself; it is the only such number. */
  lemma TwoIsMissed(n: int, r: int)
    requires n <= INT_MAX && FirstHalt(n, r)
    ensures (Passes(n, r) <==> IsPrime(n)) <==> n != 2
  {
    PassesMeansOddPrime(n, r);
    assert IsPrime(2);
  }

  // -- The code ------------------------------------------------------------------------------

  method GetNearestSqrt(num: int) returns (iter: int)
    requires num <= LAST
    ensures FirstHalt(num, iter) && iter <= HALF
    ensures num <= SAFE <==> iter == Root(num)
  {
    StopsExactly(num);
    ghost var end := HaltsByHalf(num);
    iter := 1;
    while Wrap(iter * iter) < num
      invariant 1 <= iter <= end && forall q :: 1 <= q < iter ==> !Halts(num, q)
      decreases end - iter
    {
      iter := iter + 1;
    }
    EndsAtRootExactly(num, iter);
  }

  lemma WrapAbs(n: int)
    requires INT_MIN <= n <= INT_MAX
    ensures Wrap(Abs(n)) == if n == INT_MIN then INT_MIN else Abs(n)
    ensures n < 0 ==> Wrap(n * -1) == Wrap(Abs(n))
    ensures n == INT_MIN ==> !IsPrime(Abs(n))
  {
    assert Abs(INT_MIN) % 2 == 0;
  }

  /** For every int for which the root loop ends or is not reached. Negating INT_MIN gives INT_MIN again. */
  method CheckIfPrime(n: int) returns (ret: int)
    requires n == INT_MIN || Abs(n) <= LAST
    ensures ret == 1 || ret == 0
    ensures ret == 1 <==> IsPrime(Abs(n)) && Abs(n) != 2
  {
    var num := n;
    if num < 0 {
      num := Wrap(num * -1);
    }
    WrapAbs(n);
    if num < 2 {
      return 0;
    }
    var root := GetNearestSqrt(num);
    PassesMeansOddPrime(num, root);
    var iter := 2;
    while iter <= root
      invariant 2 <= iter && forall d :: 2 <= d < iter ==> num % d != 0
      decreases root - iter
    {
      if num % iter == 0 {
        return 0;
      }
      iter := iter + 1;
    }
    return 1;
  }

  /** An int read as unsigned and reduced to 0..size. */
  function Reduce(x: int, size: nat): nat {
    x % UINT % (size + 1)
  }

  /** `u` is `x` read as an unsigned int. */
  predicate ReadAs(x: int, u: int) {
    0 <= u < UINT && (u - x) % UINT == 0
  }

  /** The remainder, by size + 1, of the one unsigned int that `x` reads as. */
  lemma ReduceMeans(x: int, size: nat)
    ensures exists u :: ReadAs(x, u)
    ensures forall u :: ReadAs(x, u) ==> Reduce(x, size) == u % (size + 1)
  {
    assert ReadAs(x, x % UINT);
    forall u | ReadAs(x, u) ensures u == x % UINT {}
  }

  function ReduceAll(s: seq<int>, size: nat): (r: seq<int>)
    ensures |r| == |s|
    ensures forall i :: 0 <= i < |s| ==> 0 <= r[i] <= size && r[i] == Reduce(s[i], size)
  {
    seq(|s|, i requires 0 <= i < |s| => Reduce(s[i], size))
  }

  /** How many entries are primes other than 2. */
  ghost function CountOddPrimes(s: seq<int>): nat {
    if s == [] then 0
    else CountOddPrimes(s[..|s| - 1]) + if IsPrime(s[|s| - 1]) && s[|s| - 1] != 2 then 1 else 0
  }

  ghost function OddPrimes(s: seq<int>): set<int> {
    set i | 0 <= i < |s| && IsPrime(s[i]) && s[i] != 2
  }

  lemma {:induction false} CountIsCardinality(s: seq<int>)
    ensures CountOddPrimes(s) == |set i | 0 <= i < |s| && IsPrime(s[i]) && s[i] != 2|
  {
    if s == [] {
      assert OddPrimes(s) == {};
    } else {
      var n := |s| - 1;
      CountIsCardinality(s[..n]);
      assert OddPrimes(s) == OddPrimes(s[..n]) + (if IsPrime(s[n]) && s[n] != 2 then {n} else {});
    }
  }

  class PrimeModule {
    var res: int

    /** The loops of `count_rand_prime` on a buffer of random ints: each entry is reduced to 0..size
        in place, and `res` grows by the number of odd primes among the reduced entries. Unless
        `size` is above LAST, every reduced entry is one for which the test ends. */
    method CountRandPrime(kbuffer: array<int>)
      requires kbuffer.Length < INT_MAX
      requires forall i :: 0 <= i < kbuffer.Length ==> Reduce(kbuffer[i], kbuffer.Length) <= LAST
      modifies this`res, kbuffer
      ensures kbuffer[..] == ReduceAll(old(kbuffer[..]), kbuffer.Length)
      ensures forall i, u :: 0 <= i < kbuffer.Length && ReadAs(old(kbuffer[i]), u)
                             ==> kbuffer[i] == u % (kbuffer.Length + 1)
      ensures res == old(res) + |set i | 0 <= i < kbuffer.Length && IsPrime(kbuffer[i]) && kbuffer[i] != 2|
    {
      var size := kbuffer.Length;
      for i := 0 to size
        invariant res == old(res)
        invariant forall j :: 0 <= j < i ==> kbuffer[j] == Reduce(old(kbuffer[j]), size)
        invariant forall j :: i <= j < size ==> kbuffer[j] == old(kbuffer[j])
      {
        kbuffer[i] := kbuffer[i] % UINT % (size + 1);
      }
      ghost var reduced := kbuffer[..];
      assert reduced == ReduceAll(old(kbuffer[..]), size);
      assert forall i :: 0 <= i < size ==> reduced[i] == Reduce(old(kbuffer[i]), size);
      for i := 0 to size
        invariant kbuffer[..] == reduced
        invariant res == old(res) + CountOddPrimes(reduced[..i])
      {
        assert kbuffer[i] == reduced[i] <= LAST;
        var prime := CheckIfPrime(kbuffer[i]);
        if prime != 0 {
          res := res + 1;
        }
        assert reduced[..i + 1][..i] == reduced[..i];
      }
      assert reduced[..size] == reduced;
      CountIsCardinality(reduced);
      assert OddPrimes(reduced) == set i | 0 <= i < kbuffer.Length && IsPrime(kbuffer[i]) && kbuffer[i] != 2;
      forall i, u | 0 <= i < size && ReadAs(old(kbuffer[i]), u) ensures kbuffer[i] == u % (size + 1) {
        assert kbuffer[i] == reduced[i];
        ReduceMeans(old(kbuffer[i]), size);
      }
    }
  }
}
