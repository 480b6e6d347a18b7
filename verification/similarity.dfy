/**
 * The similarity ranker: cosine similarity between TF-IDF vectors and the
 * linear arg-max scan over the cached vectors.
 */
module Similarity {
  import opened Numerics

  function Dot(a: seq<real>, b: seq<real>): real
    requires |a| == |b|
    decreases |a|
  {
    if a == [] then 0.0 else a[0] * b[0] + Dot(a[1..], b[1..])
  }

  lemma {:induction false} DotSymmetric(a: seq<real>, b: seq<real>)
    requires |a| == |b|
    ensures Dot(a, b) == Dot(b, a)
    decreases |a|
  {
    if a != [] {
      DotSymmetric(a[1..], b[1..]);
    }
  }

  /*
   * Sign facts about one product, stated on a name for the product: the
   * solver does not reliably connect a fact about `x * x` to the same
   * product inside a sum.
   */
  lemma ProductNonNegative(x: real, y: real, p: real)
    requires (x >= 0.0 && y >= 0.0) || (x <= 0.0 && y <= 0.0)
    requires p == x * y
    ensures p >= 0.0
  {
  }

  lemma ProductPositive(x: real, y: real, p: real)
    requires (x > 0.0 && y > 0.0) || (x < 0.0 && y < 0.0)
    requires p == x * y
    ensures p > 0.0
  {
  }

  /** Non-negative vectors have a non-negative dot product. */
  lemma {:induction false} DotNonNegative(a: seq<real>, b: seq<real>)
    requires |a| == |b|
    requires forall i :: 0 <= i < |a| ==> a[i] >= 0.0 && b[i] >= 0.0
    ensures Dot(a, b) >= 0.0
    decreases |a|
  {
    if a != [] {
      DotNonNegative(a[1..], b[1..]);
      var p := a[0] * b[0];
      ProductNonNegative(a[0], b[0], p);
      assert Dot(a, b) == p + Dot(a[1..], b[1..]);
    }
  }

  lemma {:induction false} NormSquaredNonNegative(a: seq<real>)
    ensures Dot(a, a) >= 0.0
    decreases |a|
  {
    if a != [] {
      NormSquaredNonNegative(a[1..]);
      var p := a[0] * a[0];
      ProductNonNegative(a[0], a[0], p);
      assert Dot(a, a) == p + Dot(a[1..], a[1..]);
    }
  }

  lemma NonZeroHeadNorm(a: seq<real>)
    requires a != [] && a[0] != 0.0
    ensures Dot(a, a) > 0.0
  {
    NormSquaredNonNegative(a[1..]);
    var p := a[0] * a[0];
    ProductPositive(a[0], a[0], p);
    assert Dot(a, a) == p + Dot(a[1..], a[1..]);
  }

  /** The squared norm is non-negative, and zero exactly for the zero vector. */
  lemma {:induction false} NormSquared(a: seq<real>)
    ensures Dot(a, a) >= 0.0
    ensures Dot(a, a) == 0.0 <==> forall i :: 0 <= i < |a| ==> a[i] == 0.0
    decreases |a|
  {
    NormSquaredNonNegative(a);
    if a != [] {
      var t := a[1..];
      if a[0] != 0.0 {
        NonZeroHeadNorm(a);
      } else {
        NormSquared(t);
        assert Dot(a, a) == Dot(t, t);
        if forall i :: 0 <= i < |t| ==> t[i] == 0.0 {
          forall i | 0 <= i < |a|
            ensures a[i] == 0.0
          {
            if i > 0 {
              assert a[i] == t[i - 1];
            }
          }
        } else {
          var k :| 0 <= k < |t| && t[k] != 0.0;
          assert a[k + 1] != 0.0;
        }
      }
    }
  }

  /**
   * `cosine`: zero when the lengths differ or either vector has norm zero,
   * else the dot product over the product of the norms.
   */
  function Cosine(a: seq<real>, b: seq<real>, sqrt: real -> real): real
    requires SqrtLaw(sqrt)
  {
    if |a| != |b| then 0.0
    else
      var dot, na, nb := Dot(a, b), Dot(a, a), Dot(b, b);
      if na == 0.0 || nb == 0.0 then 0.0
      else
        NormSquared(a);
        NormSquared(b);
        SqrtPositive(sqrt, na);
        SqrtPositive(sqrt, nb);
        dot / (sqrt(na) * sqrt(nb))
  }

  /** Length mismatch and a zero norm on either side both give similarity 0. */
  lemma CosineGuards(a: seq<real>, b: seq<real>, sqrt: real -> real)
    requires SqrtLaw(sqrt)
    ensures |a| != |b| ==> Cosine(a, b, sqrt) == 0.0
    ensures |a| == |b| && (Dot(a, a) == 0.0 || Dot(b, b) == 0.0) ==> Cosine(a, b, sqrt) == 0.0
  {
  }

  /** A zero vector is similar to nothing, on either side. */
  lemma CosineWithZeroVector(z: seq<real>, v: seq<real>, sqrt: real -> real)
    requires SqrtLaw(sqrt)
    requires forall i :: 0 <= i < |z| ==> z[i] == 0.0
    ensures Cosine(z, v, sqrt) == 0.0
    ensures Cosine(v, z, sqrt) == 0.0
  {
    NormSquared(z);
  }

  lemma CosineSymmetric(a: seq<real>, b: seq<real>, sqrt: real -> real)
    requires SqrtLaw(sqrt)
    ensures Cosine(a, b, sqrt) == Cosine(b, a, sqrt)
  {
    if |a| == |b| {
      DotSymmetric(a, b);
      var na, nb := Dot(a, a), Dot(b, b);
      if na != 0.0 && nb != 0.0 {
        assert sqrt(na) * sqrt(nb) == sqrt(nb) * sqrt(na);
      }
    }
  }

  /** Every non-zero vector has similarity exactly 1 with itself. */
  lemma CosineSelf(v: seq<real>, sqrt: real -> real)
    requires SqrtLaw(sqrt)
    requires exists i :: 0 <= i < |v| && v[i] != 0.0
    ensures Cosine(v, v, sqrt) == 1.0
  {
    NormSquared(v);
    var n := Dot(v, v);
    assert n > 0.0;
    SqrtPositive(sqrt, n);
    var d := sqrt(n) * sqrt(n);
    assert d == n;
    assert Cosine(v, v, sqrt) == n / d;
    assert n / n == 1.0;
  }

  /** Non-negative vectors have non-negative similarity. */
  lemma CosineNonNegative(a: seq<real>, b: seq<real>, sqrt: real -> real)
    requires SqrtLaw(sqrt)
    requires forall i :: 0 <= i < |a| ==> a[i] >= 0.0
    requires forall i :: 0 <= i < |b| ==> b[i] >= 0.0
    ensures Cosine(a, b, sqrt) >= 0.0
  {
    if |a| == |b| {
      DotNonNegative(a, b);
      NormSquared(a);
      NormSquared(b);
      var na, nb := Dot(a, a), Dot(b, b);
      if na != 0.0 && nb != 0.0 {
        SqrtPositive(sqrt, na);
        SqrtPositive(sqrt, nb);
        assert sqrt(na) * sqrt(nb) > 0.0;
      }
    }
  }

  /** The inductive step of Cauchy-Schwarz, on the head entries and the tail sums. */
  lemma CauchySchwarzStep(x: real, y: real, d: real, na: real, nb: real)
    requires na >= 0.0 && nb >= 0.0
    requires d * d <= na * nb
    ensures (x * y + d) * (x * y + d) <= (x * x + na) * (y * y + nb)
  {
    var xx, yy, xy := x * x, y * y, x * y;
    ProductNonNegative(x, x, xx);
    ProductNonNegative(y, y, yy);
    var p := xx * nb + yy * na;
    var q := 2.0 * xy * d;
    var w := xx * yy;
    ProductNonNegative(xx, nb, xx * nb);
    ProductNonNegative(yy, na, yy * na);
    assert p >= 0.0;
    ProductNonNegative(w, 1.0, w);
    assert q * q == 4.0 * w * (d * d);
    assert 4.0 * w * (d * d) <= 4.0 * w * (na * nb);
    var e := xx * nb - yy * na;
    assert p * p - 4.0 * w * (na * nb) == e * e;
    ProductNonNegative(e, e, e * e);
    assert q * q <= p * p;
    SquareBelow(q, p);
    assert (x * y + d) * (x * y + d) == w + q + d * d;
    assert (x * x + na) * (y * y + nb) == w + p + na * nb;
  }

  /** Squares compare like absolute values. */
  lemma SquareBelow(q: real, p: real)
    requires p >= 0.0
    requires q * q <= p * p
    ensures q <= p
  {
    if p + q > 0.0 {
      var r := (p - q) * (p + q);
      assert r == p * p - q * q;
      assert (p - q) == r / (p + q);
    }
  }

  /** Cauchy-Schwarz: the squared dot product is at most the product of the squared norms. */
  lemma {:induction false} CauchySchwarz(a: seq<real>, b: seq<real>)
    requires |a| == |b|
    ensures Dot(a, b) * Dot(a, b) <= Dot(a, a) * Dot(b, b)
    decreases |a|
  {
    if a != [] {
      var ta, tb := a[1..], b[1..];
      CauchySchwarz(ta, tb);
      NormSquaredNonNegative(ta);
      NormSquaredNonNegative(tb);
      CauchySchwarzStep(a[0], b[0], Dot(ta, tb), Dot(ta, ta), Dot(tb, tb));
    }
  }

  /** No similarity exceeds 1. */
  lemma CosineAtMostOne(a: seq<real>, b: seq<real>, sqrt: real -> real)
    requires SqrtLaw(sqrt)
    ensures Cosine(a, b, sqrt) <= 1.0
  {
    if |a| == |b| {
      var dot, na, nb := Dot(a, b), Dot(a, a), Dot(b, b);
      if na != 0.0 && nb != 0.0 {
        NormSquared(a);
        NormSquared(b);
        SqrtPositive(sqrt, na);
        SqrtPositive(sqrt, nb);
        var den := sqrt(na) * sqrt(nb);
        ProductPositive(sqrt(na), sqrt(nb), den);
        assert Cosine(a, b, sqrt) == dot / den;
        if dot > 0.0 {
          CauchySchwarz(a, b);
          assert den * den == (sqrt(na) * sqrt(na)) * (sqrt(nb) * sqrt(nb));
          assert den * den == na * nb;
          SquareBelow(dot, den);
        }
      }
    }
  }

  /** The similarity of the query to every cached vector, in order. */
  function Similarities(q: seq<real>, rows: seq<seq<real>>, sqrt: real -> real): (sims: seq<real>)
    requires SqrtLaw(sqrt)
    ensures |sims| == |rows|
    ensures forall i :: 0 <= i < |rows| ==> sims[i] == Cosine(q, rows[i], sqrt)
  {
    seq(|rows|, i requires 0 <= i < |rows| => Cosine(q, rows[i], sqrt))
  }

  /** `i` holds the maximum and every earlier score is strictly smaller. */
  ghost predicate IsFirstMax(s: seq<real>, i: int) {
    && 0 <= i < |s|
    && (forall j :: 0 <= j < |s| ==> s[j] <= s[i])
    && (forall j :: 0 <= j < i ==> s[j] < s[i])
  }

  lemma {:induction false} FirstMaxExists(s: seq<real>)
    requires |s| > 0
    ensures exists i :: IsFirstMax(s, i)
    decreases |s|
  {
    if |s| == 1 {
      assert IsFirstMax(s, 0);
    } else {
      var init := s[..|s| - 1];
      FirstMaxExists(init);
      var i :| IsFirstMax(init, i);
      if s[|s| - 1] > s[i] {
        assert IsFirstMax(s, |s| - 1);
      } else {
        assert IsFirstMax(s, i);
      }
    }
  }

  lemma FirstMaxUnique(s: seq<real>, i: int, j: int)
    requires IsFirstMax(s, i) && IsFirstMax(s, j)
    ensures i == j
  {
    assert s[i] <= s[j] && s[j] <= s[i];
    assert s[i] == s[j];
  }

  /** The earliest position of the largest score. */
  ghost function FirstMax(s: seq<real>): (i: nat)
    requires |s| > 0
    ensures IsFirstMax(s, i)
  {
    FirstMaxExists(s);
    var i :| IsFirstMax(s, i);
    i
  }

  /**
   * The scan of `bestFAQAnswer`: start from index -1 and score -1, and move
   * only on a strictly greater score, so ties keep the earlier index.
   */
  method BestIndex(sims: seq<real>) returns (bestIdx: int, bestSim: real)
    ensures -1 <= bestIdx < |sims|
    ensures bestIdx == -1 <==> forall j :: 0 <= j < |sims| ==> sims[j] <= -1.0
    ensures bestIdx == -1 ==> bestSim == -1.0
    ensures bestIdx >= 0 ==> bestSim == sims[bestIdx] && IsFirstMax(sims, bestIdx)
  {
    bestIdx, bestSim := -1, -1.0;
    var i := 0;
    while i < |sims|
      invariant 0 <= i <= |sims|
      invariant -1 <= bestIdx < i
      invariant bestIdx == -1 ==> bestSim == -1.0 && forall j :: 0 <= j < i ==> sims[j] <= -1.0
      invariant bestIdx >= 0 ==> bestSim == sims[bestIdx] && bestSim > -1.0
      invariant forall j :: 0 <= j < i ==> sims[j] <= bestSim
      invariant forall j :: 0 <= j < bestIdx ==> sims[j] < bestSim
    {
      if sims[i] > bestSim {
        bestSim := sims[i];
        bestIdx := i;
      }
      i := i + 1;
    }
  }
}
