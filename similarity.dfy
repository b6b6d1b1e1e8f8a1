/** Cosine similarity of two embedding vectors, as computed by both the
    in-memory vector store and the background script. Numbers are real
    numbers and the square root is a parameter: the model fixes which
    quantities are compared with zero and divided, not the floating-point
    values. */
module Similarity {

  /** Sum of `a[i] * b[i]` over the first `n` positions. */
  function Dot(a: seq<real>, b: seq<real>, n: nat): real
    requires n <= |a| && n <= |b|
  {
    if n == 0 then 0.0 else Dot(a, b, n - 1) + a[n - 1] * b[n - 1]
  }

  /** `Math.sqrt` of the sum of squares. */
  function Magnitude(a: seq<real>, sqrt: real -> real): real {
    sqrt(Dot(a, a, |a|))
  }

  /** Vectors of different lengths score 0; so does a pair in which either
      magnitude is 0; otherwise the dot product over the product of the
      magnitudes. */
  function Cosine(a: seq<real>, b: seq<real>, sqrt: real -> real): real {
    if |a| != |b| then 0.0
    else if Magnitude(a, sqrt) == 0.0 || Magnitude(b, sqrt) == 0.0 then 0.0
    else Dot(a, b, |a|) / (Magnitude(a, sqrt) * Magnitude(b, sqrt))
  }

  /** The accumulator loop: one pass summing the dot product and both
      squared magnitudes, then the two guards. */
  method CosineSimilarity(a: seq<real>, b: seq<real>, sqrt: real -> real) returns (r: real)
    ensures r == Cosine(a, b, sqrt)
    ensures |a| != |b| ==> r == 0.0
    ensures Magnitude(a, sqrt) == 0.0 || Magnitude(b, sqrt) == 0.0 ==> r == 0.0
  {
    if |a| != |b| {
      return 0.0;
    }
    var dotProduct, magnitudeA, magnitudeB := 0.0, 0.0, 0.0;
    var i := 0;
    while i < |a|
      invariant i <= |a|
      invariant dotProduct == Dot(a, b, i)
      invariant magnitudeA == Dot(a, a, i) && magnitudeB == Dot(b, b, i)
    {
      dotProduct := dotProduct + a[i] * b[i];
      magnitudeA := magnitudeA + a[i] * a[i];
      magnitudeB := magnitudeB + b[i] * b[i];
      i := i + 1;
    }
    magnitudeA := sqrt(magnitudeA);
    magnitudeB := sqrt(magnitudeB);
    if magnitudeA == 0.0 || magnitudeB == 0.0 {
      return 0.0;
    }
    return dotProduct / (magnitudeA * magnitudeB);
  }

  lemma {:induction false} DotSymmetric(a: seq<real>, b: seq<real>, n: nat)
    requires n <= |a| && n <= |b|
    ensures Dot(a, b, n) == Dot(b, a, n)
  {
    if n > 0 {
      DotSymmetric(a, b, n - 1);
    }
  }

  /** The score does not depend on the order of its arguments. */
  lemma CosineSymmetric(a: seq<real>, b: seq<real>, sqrt: real -> real)
    ensures Cosine(a, b, sqrt) == Cosine(b, a, sqrt)
  {
    if |a| == |b| {
      DotSymmetric(a, b, |a|);
      assert Magnitude(a, sqrt) * Magnitude(b, sqrt) == Magnitude(b, sqrt) * Magnitude(a, sqrt);
    }
  }

  predicate IsZero(a: seq<real>) {
    forall i | 0 <= i < |a| :: a[i] == 0.0
  }

  lemma {:induction false} DotWithZero(a: seq<real>, b: seq<real>, n: nat)
    requires n <= |a| && n <= |b| && IsZero(a)
    ensures Dot(a, b, n) == 0.0
  {
    if n > 0 {
      DotWithZero(a, b, n - 1);
    }
  }

  /** With a square root that maps 0 to 0, an all-zero vector scores 0
      against any vector. */
  lemma ZeroVectorScoresZero(a: seq<real>, b: seq<real>, sqrt: real -> real)
    requires sqrt(0.0) == 0.0 && IsZero(a)
    ensures Cosine(a, b, sqrt) == 0.0 && Cosine(b, a, sqrt) == 0.0
  {
    DotWithZero(a, a, |a|);
    CosineSymmetric(a, b, sqrt);
  }
}
