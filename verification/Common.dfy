/** Small shared vocabulary: optional values, results and the two arithmetic facts the
    schedule and polling proofs need. */
module Common {
  datatype Option<+T> = None | Some(value: T) {
    function GetOr(default: T): T {
      if Some? then value else default
    }
  }

  datatype Result<+T, +E> = Ok(value: T) | Err(error: E)

  function Min(a: int, b: int): int {
    if a <= b then a else b
  }

  /** A sequence with the element at `i` taken out. */
  function Without<T>(s: seq<T>, i: nat): (r: seq<T>)
    requires i < |s|
    ensures |r| == |s| - 1
  {
    s[..i] + s[i + 1..]
  }

  ghost predicate Distinct<T(!new)>(s: seq<T>) {
    forall i, j :: 0 <= i < j < |s| ==> s[i] != s[j]
  }

  lemma MulMono(a: int, b: int, k: int)
    requires a <= b && 0 <= k
    ensures a * k <= b * k
  {
  }

  /** n * d <= t is the same as n <= t / d, for a positive d. */
  lemma DivBound(n: int, t: int, d: int)
    requires 0 < d
    ensures n * d <= t <==> n <= t / d
  {
    var q := t / d;
    assert q * d <= t < (q + 1) * d;
    if n <= q {
      MulMono(n, q, d);
    } else {
      MulMono(q + 1, n, d);
    }
  }
}
