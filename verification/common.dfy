/** Small shared vocabulary: an optional value, sums of integer amounts
    and counting over sequences. */
module Common {

  /** A value that may be absent (`undefined` / `null` in the system). */
  datatype Option<+T> = None | Some(value: T)

  function Abs(x: int): (a: nat)
    ensures a == x || a == -x
  {
    if x < 0 then -x else x
  }

  function RealAbs(x: real): (a: real)
    ensures a >= 0.0
    ensures a == x || a == -x
  {
    if x < 0.0 then -x else x
  }

  /** Sum of integer amounts, folded from the left as `reduce` does:
      the sum of all but the last element, plus the last. */
  function Sum(s: seq<int>): int
  {
    if |s| == 0 then 0 else Sum(s[..|s| - 1]) + s[|s| - 1]
  }

  /** Replacing the last amount changes the sum by exactly the difference. */
  lemma SumUpdateLast(s: seq<int>, v: int)
    requires |s| > 0
    ensures Sum(s[|s| - 1 := v]) == Sum(s) - s[|s| - 1] + v
  {
    assert s[|s| - 1 := v][..|s| - 1] == s[..|s| - 1];
  }

  /** `n` copies of `c` sum to `n * c`. */
  lemma {:induction false} SumConstant(n: nat, c: int)
    ensures Sum(seq(n, _ => c)) == n * c
  {
    if n > 0 {
      assert seq(n, _ => c)[..n - 1] == seq(n - 1, _ => c);
      SumConstant(n - 1, c);
    }
  }

  /** Number of elements of `s` satisfying `p`. */
  function Count<T>(s: seq<T>, p: T -> bool): (n: nat)
    ensures n <= |s|
    ensures n == 0 <==> forall i :: 0 <= i < |s| ==> !p(s[i])
    ensures n == |s| <==> forall i :: 0 <= i < |s| ==> p(s[i])
  {
    if |s| == 0 then 0
    else
      var rest := Count(s[1..], p);
      assert forall i :: 1 <= i < |s| ==> s[i] == s[1..][i - 1];
      (if p(s[0]) then 1 else 0) + rest
  }

  /** Counting distributes over concatenation. */
  lemma {:induction false} CountAppend<T>(a: seq<T>, b: seq<T>, p: T -> bool)
    ensures Count(a + b, p) == Count(a, p) + Count(b, p)
  {
    if |a| > 0 {
      assert (a + b)[1..] == a[1..] + b;
      CountAppend(a[1..], b, p);
    } else {
      assert a + b == b;
    }
  }

  /** Counting over four concatenated pieces. */
  lemma CountAppend4<T>(a: seq<T>, b: seq<T>, c: seq<T>, d: seq<T>, p: T -> bool)
    ensures Count(a + b + c + d, p) == Count(a, p) + Count(b, p) + Count(c, p) + Count(d, p)
  {
    CountAppend(a + b + c, d, p);
    CountAppend(a + b, c, p);
    CountAppend(a, b, p);
  }

  /** `n * f` for a whole number `n`, written as repeated addition so
      that reasoning about proportional shares stays linear; ScaledIsProduct
      shows it is the product. */
  function Scaled(n: int, f: real): real
    decreases Abs(n)
  {
    if n == 0 then 0.0
    else if n > 0 then Scaled(n - 1, f) + f
    else Scaled(n + 1, f) - f
  }

  lemma {:induction false} ScaledIsProduct(n: int, f: real)
    ensures Scaled(n, f) == n as real * f
    decreases Abs(n)
  {
    if n > 0 {
      ScaledIsProduct(n - 1, f);
      assert (n - 1) as real * f + f == n as real * f;
    } else if n < 0 {
      ScaledIsProduct(n + 1, f);
      assert (n + 1) as real * f - f == n as real * f;
    }
  }

  /** Scaling distributes over a sum of factors. */
  lemma {:induction false} ScaledAdd(n: int, a: real, b: real)
    ensures Scaled(n, a + b) == Scaled(n, a) + Scaled(n, b)
    decreases Abs(n)
  {
    if n > 0 {
      ScaledAdd(n - 1, a, b);
    } else if n < 0 {
      ScaledAdd(n + 1, a, b);
    }
  }

  /** `n` copies of 1 make `n`. */
  lemma {:induction false} ScaledOne(n: int)
    ensures Scaled(n, 1.0) == n as real
    decreases Abs(n)
  {
    if n > 0 {
      ScaledOne(n - 1);
    } else if n < 0 {
      ScaledOne(n + 1);
    }
  }

  /** Scaling by a non-negative count keeps a factor within its bounds. */
  lemma {:induction false} ScaledWithin(n: nat, d: real, k: real)
    requires -k <= d <= k
    ensures -Scaled(n, k) <= Scaled(n, d) <= Scaled(n, k)
  {
    if n > 0 {
      ScaledWithin(n - 1, d, k);
    }
  }
}
