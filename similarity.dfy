/** The genre vectors and the cosine similarity of script.js
  * (`createGenreVector`, `calculateCosineSimilarity`).
  *
  * A cosine dot / (|a| * |b|) involves square roots, which are kept symbolic:
  * a similarity is `numerator / sqrt(radicand)` with the dot product as the
  * numerator and the product of the two squared magnitudes as the radicand.
  * Similarities are compared through `Rank`, the signed square of the value,
  * which orders them exactly as their values do (lemma `RankOrdersValues`). */
module Similarity {
  import opened MovieData

  type Vector = seq<int>

  predicate IsBinary(v: Vector) {
    forall i :: 0 <= i < |v| ==> v[i] == 0 || v[i] == 1
  }

  predicate IsZero(v: Vector) {
    forall i :: 0 <= i < |v| ==> v[i] == 0
  }

  /** `createGenreVector`: one entry per vocabulary genre, 1 when the movie has
    * that genre and 0 otherwise. The source reads the global `allGenres`;
    * here it is a parameter. */
  function GenreVector(allGenres: seq<string>, movieGenres: seq<string>): (v: Vector)
    ensures |v| == |allGenres| && IsBinary(v)
  {
    seq(|allGenres|, i requires 0 <= i < |allGenres| => if allGenres[i] in movieGenres then 1 else 0)
  }

  /** Entry i of a genre vector is 1 exactly when vocabulary genre i is one of
    * the movie's genres. */
  lemma GenreVectorEntries(allGenres: seq<string>, movieGenres: seq<string>, i: nat)
    requires i < |allGenres|
    ensures GenreVector(allGenres, movieGenres)[i] == 1 <==> allGenres[i] in movieGenres
    ensures GenreVector(allGenres, movieGenres)[i] == 0 <==> allGenres[i] !in movieGenres
  {
  }

  /** Only genres of the vocabulary matter: genres outside it are ignored, and
    * so are the order and repetitions of the movie's genres. */
  lemma GenreVectorIgnoresOtherGenres(allGenres: seq<string>, genres1: seq<string>, genres2: seq<string>)
    requires forall g :: g in allGenres ==> (g in genres1 <==> g in genres2)
    ensures GenreVector(allGenres, genres1) == GenreVector(allGenres, genres2)
  {
    var v1 := GenreVector(allGenres, genres1);
    var v2 := GenreVector(allGenres, genres2);
    forall i | 0 <= i < |allGenres| ensures v1[i] == v2[i] {
      assert allGenres[i] in allGenres;
    }
  }

  lemma GenreVectorPrefix(allGenres: seq<string>, movieGenres: seq<string>, n: nat)
    requires n <= |allGenres|
    ensures GenreVector(allGenres, movieGenres)[..n] == GenreVector(allGenres[..n], movieGenres)
  {
  }

  // ---------------------------------------------------------------------
  // Dot product and magnitudes

  /** The dot product, accumulated from the first entry on. */
  function Dot(a: Vector, b: Vector): int
    requires |a| == |b|
  {
    if |a| == 0 then 0 else Dot(a[..|a| - 1], b[..|a| - 1]) + a[|a| - 1] * b[|a| - 1]
  }

  /** `v.reduce((sum, val) => sum + val * val, 0)`: the squared magnitude. */
  function SumSquares(v: Vector): (r: int)
    ensures r >= 0
  {
    if |v| == 0 then 0 else SumSquares(v[..|v| - 1]) + v[|v| - 1] * v[|v| - 1]
  }

  lemma {:induction false} SumSquaresIsSelfDot(v: Vector)
    ensures SumSquares(v) == Dot(v, v)
  {
    if |v| > 0 {
      SumSquaresIsSelfDot(v[..|v| - 1]);
    }
  }

  /** The dot product does not depend on the order of its arguments. */
  lemma {:induction false} DotSymmetric(a: Vector, b: Vector)
    requires |a| == |b|
    ensures Dot(a, b) == Dot(b, a)
  {
    if |a| > 0 {
      DotSymmetric(a[..|a| - 1], b[..|a| - 1]);
    }
  }

  /** A vector has magnitude 0 exactly when all its entries are 0. */
  lemma {:induction false} NoMagnitudeIffZero(v: Vector)
    ensures SumSquares(v) == 0 <==> IsZero(v)
  {
    if |v| > 0 {
      var init := v[..|v| - 1];
      NoMagnitudeIffZero(init);
      assert forall i :: 0 <= i < |init| ==> init[i] == v[i];
      var last := v[|v| - 1];
      if last != 0 {
        assert last * last > 0;
      }
    }
  }

  /** For 0/1 vectors the dot product is between 0 and either squared magnitude. */
  lemma {:induction false} BinaryDotBounds(a: Vector, b: Vector)
    requires |a| == |b| && IsBinary(a) && IsBinary(b)
    ensures 0 <= Dot(a, b) <= SumSquares(a)
    ensures Dot(a, b) <= SumSquares(b)
  {
    if |a| > 0 {
      var n := |a| - 1;
      assert IsBinary(a[..n]) && IsBinary(b[..n]);
      BinaryDotBounds(a[..n], b[..n]);
    }
  }

  /** The number of vocabulary genres that both genre lists have. */
  function CountShared(allGenres: seq<string>, genres1: seq<string>, genres2: seq<string>): nat {
    if allGenres == [] then 0
    else
      var g := allGenres[|allGenres| - 1];
      CountShared(allGenres[..|allGenres| - 1], genres1, genres2) + (if g in genres1 && g in genres2 then 1 else 0)
  }

  /** The dot product of two genre vectors counts their shared genres. */
  lemma {:induction false} DotOfGenreVectors(allGenres: seq<string>, genres1: seq<string>, genres2: seq<string>)
    ensures Dot(GenreVector(allGenres, genres1), GenreVector(allGenres, genres2)) == CountShared(allGenres, genres1, genres2)
  {
    if allGenres != [] {
      var n := |allGenres| - 1;
      DotOfGenreVectors(allGenres[..n], genres1, genres2);
      GenreVectorPrefix(allGenres, genres1, n);
      GenreVectorPrefix(allGenres, genres2, n);
    }
  }

  /** Over a duplicate-free vocabulary, the shared count is the number of
    * distinct genres the two lists have in common within the vocabulary. */
  lemma {:induction false} CountSharedIsSetSize(allGenres: seq<string>, genres1: seq<string>, genres2: seq<string>)
    requires Distinct(allGenres)
    ensures CountShared(allGenres, genres1, genres2)
            == |set g | g in allGenres && g in genres1 && g in genres2|
  {
    if allGenres == [] {
      assert (set g | g in allGenres && g in genres1 && g in genres2) == {};
    } else {
      var n := |allGenres| - 1;
      var init := allGenres[..n];
      var last := allGenres[n];
      assert Distinct(init);
      CountSharedIsSetSize(init, genres1, genres2);
      var before := set g | g in init && g in genres1 && g in genres2;
      var after := set g | g in allGenres && g in genres1 && g in genres2;
      assert allGenres == init + [last];
      assert forall i :: 0 <= i < n ==> init[i] != last by {
        forall i | 0 <= i < n ensures init[i] != last {
          assert init[i] == allGenres[i];
        }
      }
      assert last !in init;
      SharedSetStep(init, last, genres1, genres2);
    }
  }

  /** Adding a genre not yet in the vocabulary adds it to the shared set
    * exactly when both lists have it. */
  lemma SharedSetStep(init: seq<string>, last: string, genres1: seq<string>, genres2: seq<string>)
    requires last !in init
    ensures var before := set g | g in init && g in genres1 && g in genres2;
            var after := set g | g in init + [last] && g in genres1 && g in genres2;
            |after| == |before| + (if last in genres1 && last in genres2 then 1 else 0)
  {
    var before := set g | g in init && g in genres1 && g in genres2;
    var after := set g | g in init + [last] && g in genres1 && g in genres2;
    if last in genres1 && last in genres2 {
      assert after == before + {last};
    } else {
      assert after == before;
    }
  }

  // ---------------------------------------------------------------------
  // Similarities

  /** `numerator / sqrt(radicand)` */
  datatype SqrtRatio = SqrtRatio(numerator: int, radicand: int)

  type Similarity = s: SqrtRatio | s.radicand > 0 witness SqrtRatio(0, 1)

  /** The similarity 0, returned when a vector has no magnitude. */
  const NoSimilarity: Similarity := SqrtRatio(0, 1)

  /** The similarity 1. */
  const FullSimilarity: Similarity := SqrtRatio(1, 1)

  /** The signed square of a similarity's value. */
  function Rank(s: Similarity): real {
    (s.numerator * (if s.numerator < 0 then -s.numerator else s.numerator)) as real / s.radicand as real
  }

  /** `v` is the value that `s` stands for: v * v * radicand == numerator * numerator,
    * with the sign of the numerator. */
  predicate IsValueOf(v: real, s: Similarity) {
    v * v * s.radicand as real == (s.numerator * s.numerator) as real && (v >= 0.0 <==> s.numerator >= 0)
  }

  lemma RankIsSignedSquare(s: Similarity, v: real)
    requires IsValueOf(v, s)
    ensures Rank(s) == if v >= 0.0 then v * v else -(v * v)
  {
    var d := s.radicand as real;
    var n2 := (s.numerator * s.numerator) as real;
    assert v * v == n2 / d;
  }

  /** Squares order the non-negative reals. */
  lemma SquaresOrderNonNegatives(v: real, w: real)
    requires v >= 0.0 && w >= 0.0
    ensures v >= w <==> v * v >= w * w
  {
    if v >= w {
      assert v * v >= w * v;
      assert w * v >= w * w;
    } else {
      StrictlyBelowSquared(v, w);
    }
  }

  lemma StrictlyBelowSquared(v: real, w: real)
    requires 0.0 <= v < w
    ensures v * v < w * w
  {
    var d := w - v;
    assert w == v + d;
    assert w * w == v * v + 2.0 * v * d + d * d;
    assert d * d > 0.0;
    assert v * d >= 0.0;
  }

  /** Comparing ranks compares the similarities' values. */
  lemma RankOrdersValues(s: Similarity, t: Similarity, v: real, w: real)
    requires IsValueOf(v, s) && IsValueOf(w, t)
    ensures Rank(s) >= Rank(t) <==> v >= w
  {
    RankIsSignedSquare(s, v);
    RankIsSignedSquare(t, w);
    if v >= 0.0 && w >= 0.0 {
      SquaresOrderNonNegatives(v, w);
    } else if v < 0.0 && w < 0.0 {
      SquaresOrderNonNegatives(-w, -v);
      assert (-w) * (-w) == w * w && (-v) * (-v) == v * v;
    } else if v >= 0.0 {
      assert v * v >= 0.0 && w * w > 0.0;
    } else {
      assert v * v > 0.0 && w * w >= 0.0;
    }
  }

  /** The comparison of two non-negative similarities by cross-multiplying
    * squares: s >= t exactly when numerator(s)^2 * radicand(t) >= numerator(t)^2 * radicand(s). */
  lemma RankCrossMultiplied(s: Similarity, t: Similarity)
    requires s.numerator >= 0 && t.numerator >= 0
    ensures Rank(s) >= Rank(t) <==>
            s.numerator * s.numerator * t.radicand >= t.numerator * t.numerator * s.radicand
  {
    var a := (s.numerator * s.numerator) as real;
    var b := s.radicand as real;
    var c := (t.numerator * t.numerator) as real;
    var d := t.radicand as real;
    assert Rank(s) == a / b && Rank(t) == c / d;
    assert a / b - c / d == (a * d - c * b) / (b * d);
    assert (s.numerator * s.numerator * t.radicand) as real == a * d;
    assert (t.numerator * t.numerator * s.radicand) as real == c * b;
  }

  /** The cosine of two vectors of equal length: 0 when either has no
    * magnitude, dot / (|a| * |b|) otherwise. */
  function CosineOf(a: Vector, b: Vector): Similarity
    requires |a| == |b|
  {
    var squaredA := SumSquares(a);
    var squaredB := SumSquares(b);
    if squaredA == 0 || squaredB == 0 then NoSimilarity
    else SqrtRatio(Dot(a, b), squaredA * squaredB)
  }

  /** `calculateCosineSimilarity`: accumulates the dot product entry by entry,
    * then divides by the product of the magnitudes unless one is 0. */
  method CalculateCosineSimilarity(vectorA: Vector, vectorB: Vector) returns (similarity: Similarity)
    requires |vectorA| == |vectorB|
    ensures similarity == CosineOf(vectorA, vectorB)
  {
    var dotProduct := 0;
    var i := 0;
    while i < |vectorA|
      invariant 0 <= i <= |vectorA|
      invariant dotProduct == Dot(vectorA[..i], vectorB[..i])
    {
      assert vectorA[..i + 1][..i] == vectorA[..i] && vectorB[..i + 1][..i] == vectorB[..i];
      dotProduct := dotProduct + vectorA[i] * vectorB[i];
      i := i + 1;
    }
    assert vectorA[..i] == vectorA && vectorB[..i] == vectorB;
    // The squares of `magnitudeA` and `magnitudeB`: the roots stay symbolic.
    var squaredA := SumSquares(vectorA);
    var squaredB := SumSquares(vectorB);
    if squaredA == 0 || squaredB == 0 {
      return NoSimilarity;
    }
    similarity := SqrtRatio(dotProduct, squaredA * squaredB);
  }

  lemma QuotientSquared(d: real, magnitudeA: real, magnitudeB: real)
    requires magnitudeA > 0.0 && magnitudeB > 0.0
    ensures var v := d / (magnitudeA * magnitudeB);
            v * v * ((magnitudeA * magnitudeA) * (magnitudeB * magnitudeB)) == d * d
            && (v >= 0.0 <==> d >= 0.0)
  {
    var m := magnitudeA * magnitudeB;
    var v := d / m;
    assert m > 0.0;
    assert v * m == d;
    assert (magnitudeA * magnitudeA) * (magnitudeB * magnitudeB) == m * m;
    assert v * v * (m * m) == (v * m) * (v * m);
  }

  lemma CastProduct(x: int, y: int)
    ensures (x * y) as real == x as real * y as real
  {
  }

  /** For two vectors that are not all zero, the value of `CosineOf` is the
    * cosine: dot / (|a| * |b|) with |a|^2 and |b|^2 the squared magnitudes. */
  lemma CosineValue(a: Vector, b: Vector, magnitudeA: real, magnitudeB: real)
    requires |a| == |b| && !IsZero(a) && !IsZero(b)
    requires magnitudeA > 0.0 && magnitudeA * magnitudeA == SumSquares(a) as real
    requires magnitudeB > 0.0 && magnitudeB * magnitudeB == SumSquares(b) as real
    ensures IsValueOf(Dot(a, b) as real / (magnitudeA * magnitudeB), CosineOf(a, b))
  {
    NoMagnitudeIffZero(a);
    NoMagnitudeIffZero(b);
    SquareRootsOfRatio(Dot(a, b), SumSquares(a), SumSquares(b), magnitudeA, magnitudeB);
  }

  /** With |a| and |b| the square roots of sa and sb, dot / (|a| * |b|) is the
    * value of the ratio dot / sqrt(sa * sb). */
  lemma SquareRootsOfRatio(d: int, sa: int, sb: int, magnitudeA: real, magnitudeB: real)
    requires sa > 0 && sb > 0
    requires magnitudeA > 0.0 && magnitudeA * magnitudeA == sa as real
    requires magnitudeB > 0.0 && magnitudeB * magnitudeB == sb as real
    ensures sa * sb > 0 && IsValueOf(d as real / (magnitudeA * magnitudeB), SqrtRatio(d, sa * sb))
  {
    PositiveProduct(sa, sb);
    QuotientSquared(d as real, magnitudeA, magnitudeB);
    CastProduct(sa, sb);
    CastProduct(d, d);
  }

  lemma PositiveProduct(x: int, y: int)
    requires x > 0 && y > 0
    ensures x * y > 0
  {
  }

  /** The similarity is 0 when either vector is all zero, both included. */
  lemma CosineOfZeroVector(a: Vector, b: Vector)
    requires |a| == |b| && (IsZero(a) || IsZero(b))
    ensures Rank(CosineOf(a, b)) == 0.0 && CosineOf(a, b).numerator == 0
  {
    NoMagnitudeIffZero(a);
    NoMagnitudeIffZero(b);
  }

  /** The similarity is symmetric. */
  lemma CosineSymmetric(a: Vector, b: Vector)
    requires |a| == |b|
    ensures CosineOf(a, b) == CosineOf(b, a)
  {
    DotSymmetric(a, b);
  }

  lemma SquareBelowProduct(d: int, x: int, y: int)
    requires 0 <= d <= x && d <= y
    ensures d * d <= x * y
  {
    assert d * d <= x * d;
    assert x * d <= x * y;
  }

  lemma RankOfNonNegative(s: Similarity)
    requires s.numerator >= 0
    ensures Rank(s) == (s.numerator * s.numerator) as real / s.radicand as real
  {
  }

  /** For 0/1 vectors the similarity lies in [0, 1]: a non-negative numerator
    * whose square is at most the radicand. */
  lemma BinaryCosineInUnitInterval(a: Vector, b: Vector)
    requires |a| == |b| && IsBinary(a) && IsBinary(b)
    ensures CosineOf(a, b).numerator >= 0
    ensures CosineOf(a, b).numerator * CosineOf(a, b).numerator <= CosineOf(a, b).radicand
    ensures 0.0 <= Rank(CosineOf(a, b)) <= 1.0
  {
    var s := CosineOf(a, b);
    BinaryDotBounds(a, b);
    if SumSquares(a) != 0 && SumSquares(b) != 0 {
      SquareBelowProduct(Dot(a, b), SumSquares(a), SumSquares(b));
    }
    RankOfNonNegative(s);
    var n2 := (s.numerator * s.numerator) as real;
    var r := s.radicand as real;
    assert 0.0 <= n2 <= r;
  }

  lemma RankOfSquareRadicand(m: int)
    requires m > 0
    ensures m * m > 0 && Rank(SqrtRatio(m, m * m)) == 1.0
  {
    var square := m * m;
    assert square > 0 by {
      assert m * m >= 1 * m;
    }
    var x := square as real;
    assert Rank(SqrtRatio(m, square)) == x / x;
    RatioOfItself(x);
  }

  lemma RatioOfItself(x: real)
    requires x > 0.0
    ensures x / x == 1.0
  {
  }

  /** A vector that is not all zero has similarity 1 with itself. */
  lemma CosineWithItself(a: Vector)
    requires !IsZero(a)
    ensures CosineOf(a, a).numerator * CosineOf(a, a).numerator == CosineOf(a, a).radicand
    ensures Rank(CosineOf(a, a)) == 1.0
  {
    NoMagnitudeIffZero(a);
    SumSquaresIsSelfDot(a);
    var magnitude := SumSquares(a);
    assert CosineOf(a, a) == SqrtRatio(magnitude, magnitude * magnitude);
    RankOfSquareRadicand(magnitude);
  }
}
