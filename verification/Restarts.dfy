/** The Luby restart sequence
    (src/sat/solvers/glucose/src/core/Solver.cc:1716-1730, 1789-1795). */
module Restarts {

  const LUBY_FACTOR: nat := 100

  function Pow2(n: nat): (r: nat)
    ensures r > 0
  {
    if n == 0 then 1 else 2 * Pow2(n - 1)
  }

  /** The finite subsequence that has index x: the smallest one of a size
      2^(n+1) - 1 above x. */
  function Subsequence(x: nat, n: nat): (k: nat)
    requires n > 0 ==> Pow2(n) - 1 <= x
    ensures x < Pow2(k + 1) - 1
    ensures k > 0 ==> Pow2(k) - 1 <= x
    decreases x + 1 - (Pow2(n + 1) - 1)
  {
    if Pow2(n + 1) - 1 < x + 1 then
      assert Pow2(n + 2) == 2 * Pow2(n + 1);
      Subsequence(x, n + 1)
    else n
  }

  /** Within the subsequence of size 2^(k+1) - 1 the last value is 2^k, and the
      halves before it are smaller subsequences. */
  function LubyIn(k: nat, x: nat): (r: nat)
    requires x < Pow2(k + 1) - 1
    ensures r > 0
    decreases k
  {
    if x == Pow2(k + 1) - 2 then Pow2(k)
    else
      assert k > 0 && Pow2(k) >= 2;
      LubyIn(k - 1, x % (Pow2(k) - 1))
  }

  /** luby with base 2 */
  function Luby(x: nat): (r: nat)
    ensures r > 0
  {
    LubyIn(Subsequence(x, 0), x)
  }

  /** The number of conflicts before restart number i. */
  function Limit(i: nat): (r: nat)
    ensures r >= LUBY_FACTOR
  {
    LUBY_FACTOR * Luby(i)
  }

  lemma {:induction false} Pow2More(a: nat, b: nat)
    requires a < b
    ensures 2 * Pow2(a) <= Pow2(b)
    decreases b
  {
    if a < b - 1 {
      Pow2More(a, b - 1);
    }
  }

  /** The rounds get as long as any bound. */
  lemma LubyPeak(k: nat)
    ensures Luby(Pow2(k + 1) - 2) == Pow2(k)
  {
    OneSubsequence(Pow2(k + 1) - 2, k);
  }

  lemma ModOnce(x: nat, m: nat)
    requires m > 0 && x < 2 * m
    ensures x % m == if x < m then x else x - m
  {
    if x >= m {
      assert x == m + (x - m);
    }
  }

  /** A value below the last subsequence is the same in all longer ones. */
  lemma {:induction false} InLonger(j: nat, k: nat, x: nat)
    requires j <= k && x < Pow2(j + 1) - 1
    ensures x < Pow2(k + 1) - 1 && LubyIn(k, x) == LubyIn(j, x)
    decreases k
  {
    if j < k {
      InLonger(j, k - 1, x);
      assert Pow2(k + 1) == 2 * Pow2(k);
      ModOnce(x, Pow2(k) - 1);
    }
  }

  /** Between two peaks the sequence repeats what led up to the first one. */
  lemma LubyBetween(k: nat, x: nat)
    requires Pow2(k) - 1 <= x < Pow2(k + 1) - 2
    ensures Luby(x) == Luby(x - (Pow2(k) - 1))
  {
    OneSubsequence(x, k);
    var y := x - (Pow2(k) - 1);
    var i := Subsequence(y, 0);
    if i >= k {
      if k < i {
        Pow2More(k, i);
      }
    } else {
      assert Pow2(k + 1) == 2 * Pow2(k);
      ModOnce(x, Pow2(k) - 1);
      InLonger(i, k - 1, y);
    }
  }

  /** The computation with two loops: the smallest subsequence that reaches past x,
      then the smaller ones in it. */
  method ComputeLuby(x: nat) returns (r: nat)
    ensures r == Luby(x)
  {
    var size: int, n: int, y: int := 1, 0, x;
    while size < x + 1
      invariant size == Pow2(n + 1) - 1 && size > 0 && (n > 0 ==> Pow2(n) - 1 <= x)
      decreases x + 1 - size
    {
      assert Pow2(n + 2) == 2 * Pow2(n + 1);
      size, n := 2 * size + 1, n + 1;
    }
    OneSubsequence(x, n);
    while size - 1 != y
      invariant n >= 0 && size == Pow2(n + 1) - 1 && 0 <= y < size && LubyIn(n, y) == Luby(x)
      decreases n
    {
      InSmaller(n, y);
      size := (size - 1) / 2;
      y, n := y % size, n - 1;
    }
    r := Pow2(n);
  }

  lemma InSmaller(n: nat, y: nat)
    requires y < Pow2(n + 1) - 1 && y != Pow2(n + 1) - 2
    ensures n > 0 && Pow2(n + 1) == 2 * Pow2(n) && Pow2(n) > 1
    ensures 0 <= y % (Pow2(n) - 1) < Pow2(n) - 1 && LubyIn(n, y) == LubyIn(n - 1, y % (Pow2(n) - 1))
  {
    assert Pow2(1) == 2;
    assert n > 0 ==> Pow2(n) == 2 * Pow2(n - 1);
  }

  lemma OneSubsequence(x: nat, n: nat)
    requires x < Pow2(n + 1) - 1 && (n > 0 ==> Pow2(n) - 1 <= x)
    ensures Subsequence(x, 0) == n
  {
    var j := Subsequence(x, 0);
    if j + 1 <= n {
      if j + 1 < n {
        Pow2More(j + 1, n);
      }
    } else if n + 1 <= j {
      if n + 1 < j {
        Pow2More(n + 1, j);
      }
    }
  }
}
