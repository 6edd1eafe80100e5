/** The lookup and aggregation helpers of data.js. The source reads the
  * global `movies` and `ratings`; here they are parameters. */
module Lookup {
  import opened JsBuiltins
  import opened MovieData

  predicate HasId(m: Movie, id: Number) {
    StrictEquals(m.id, id)
  }

  /** `getMovieById`: the first movie whose id is `=== id`, or None (`null`). */
  function GetMovieById(movies: seq<Movie>, id: Number): (found: Option<Movie>)
    ensures found.None? <==> forall i :: 0 <= i < |movies| ==> !HasId(movies[i], id)
    ensures found.Some? ==> exists i :: 0 <= i < |movies| && movies[i] == found.value && HasId(movies[i], id)
                                        && forall j :: 0 <= j < i ==> !HasId(movies[j], id)
  {
    if movies == [] then None
    else if HasId(movies[0], id) then Some(movies[0])
    else
      var found := GetMovieById(movies[1..], id);
      assert forall i :: 1 <= i < |movies| ==> movies[1..][i - 1] == movies[i];
      if found.Some? then
        var i :| 0 <= i < |movies[1..]| && movies[1..][i] == found.value && HasId(movies[1..][i], id)
                 && forall j :: 0 <= j < i ==> !HasId(movies[1..][j], id);
        assert forall j :: 0 <= j < i + 1 ==> !HasId(movies[j], id) by {
          forall j | 0 <= j < i + 1 ensures !HasId(movies[j], id) {
            if j > 0 { assert movies[j] == movies[1..][j - 1]; }
          }
        }
        found
      else
        found
  }

  predicate RatesMovie(r: Rating, movieId: Number) {
    StrictEquals(r.movieId, movieId)
  }

  /** `getRatingsForMovie`: the ratings whose movie id is `=== movieId`, in their order. */
  function GetRatingsForMovie(ratings: seq<Rating>, movieId: Number): (matching: seq<Rating>)
    ensures |matching| <= |ratings|
    ensures forall r :: r in matching <==> r in ratings && RatesMovie(r, movieId)
  {
    if ratings == [] then []
    else
      assert ratings == [ratings[0]] + ratings[1..];
      (if RatesMovie(ratings[0], movieId) then [ratings[0]] else []) + GetRatingsForMovie(ratings[1..], movieId)
  }

  lemma GetRatingsForMovieCons(x: Rating, rest: seq<Rating>, movieId: Number)
    ensures GetRatingsForMovie([x] + rest, movieId)
            == (if RatesMovie(x, movieId) then [x] else []) + GetRatingsForMovie(rest, movieId)
  {
    assert ([x] + rest)[1..] == rest;
  }

  /** Filtering keeps the order: it distributes over concatenation. */
  lemma {:induction false} GetRatingsForMovieAppend(a: seq<Rating>, b: seq<Rating>, movieId: Number)
    ensures GetRatingsForMovie(a + b, movieId) == GetRatingsForMovie(a, movieId) + GetRatingsForMovie(b, movieId)
  {
    if a == [] {
      assert a + b == b;
    } else {
      var x, tail := a[0], a[1..];
      var head := if RatesMovie(x, movieId) then [x] else [];
      calc {
        GetRatingsForMovie(a + b, movieId);
        { assert a + b == [x] + (tail + b); GetRatingsForMovieCons(x, tail + b, movieId); }
        head + GetRatingsForMovie(tail + b, movieId);
        { GetRatingsForMovieAppend(tail, b, movieId); }
        head + (GetRatingsForMovie(tail, movieId) + GetRatingsForMovie(b, movieId));
        { assert a == [x] + tail; GetRatingsForMovieCons(x, tail, movieId); }
        GetRatingsForMovie(a, movieId) + GetRatingsForMovie(b, movieId);
      }
    }
  }

  /** Every matching rating is kept as often as it occurs; duplicates are not merged. */
  lemma {:induction false} GetRatingsForMovieCounts(ratings: seq<Rating>, movieId: Number, r: Rating)
    requires RatesMovie(r, movieId)
    ensures multiset(GetRatingsForMovie(ratings, movieId))[r] == multiset(ratings)[r]
  {
    if ratings != [] {
      GetRatingsForMovieCounts(ratings[1..], movieId, r);
      assert ratings == [ratings[0]] + ratings[1..];
    }
  }

  /** `reduce((total, r) => total + r.rating, 0)` */
  function SumOfRatings(ratings: seq<Rating>): Number {
    if ratings == [] then Num(0.0)
    else Add(SumOfRatings(ratings[..|ratings| - 1]), ratings[|ratings| - 1].rating)
  }

  predicate AllNumbers(ratings: seq<Rating>) {
    forall i :: 0 <= i < |ratings| ==> ratings[i].rating.Num?
  }

  /** `getAverageRating`: the mean rating of the movie, 0 when it has none. */
  function GetAverageRating(ratings: seq<Rating>, movieId: Number): (average: Number)
    ensures var m := GetRatingsForMovie(ratings, movieId);
            && (m == [] ==> average == Num(0.0))
            && (m != [] && !AllNumbers(m) ==> average == NaN)
            && (m != [] && AllNumbers(m) ==>
                  average.Num?
                  && (exists i :: 0 <= i < |m| && m[i].rating.value <= average.value)
                  && (exists i :: 0 <= i < |m| && average.value <= m[i].rating.value))
  {
    var movieRatings := GetRatingsForMovie(ratings, movieId);
    MeanRatingBounds(movieRatings);
    MeanRating(movieRatings)
  }

  /** The average of one movie's ratings: their sum over their count, 0 when
    * there are none. */
  function MeanRating(m: seq<Rating>): Number {
    if |m| == 0 then Num(0.0) else DivideByCount(SumOfRatings(m), |m|)
  }

  lemma MeanRatingBounds(m: seq<Rating>)
    ensures var average := MeanRating(m);
            && (m == [] ==> average == Num(0.0))
            && (m != [] && !AllNumbers(m) ==> average == NaN)
            && (m != [] && AllNumbers(m) ==>
                  average.Num?
                  && (exists i :: 0 <= i < |m| && m[i].rating.value <= average.value)
                  && (exists i :: 0 <= i < |m| && average.value <= m[i].rating.value))
  {
    if m != [] {
      SumIsNaNUnlessAllNumbers(m);
      if AllNumbers(m) {
        MeanBetweenExtremes(m);
      }
    }
  }

  lemma {:induction false} SumIsNaNUnlessAllNumbers(ratings: seq<Rating>)
    ensures SumOfRatings(ratings).Num? <==> AllNumbers(ratings)
  {
    if ratings != [] {
      SumIsNaNUnlessAllNumbers(ratings[..|ratings| - 1]);
    }
  }

  /** Values all below `bound` sum to less than `bound` times their count. */
  lemma {:induction false} SumBelow(ratings: seq<Rating>, bound: real)
    requires ratings != [] && AllNumbers(ratings)
    requires forall i :: 0 <= i < |ratings| ==> ratings[i].rating.value < bound
    ensures SumOfRatings(ratings).Num? && SumOfRatings(ratings).value < |ratings| as real * bound
    decreases |ratings|
  {
    var init := ratings[..|ratings| - 1];
    var last := ratings[|ratings| - 1].rating.value;
    if init == [] {
      assert SumOfRatings(ratings) == Num(last);
    } else {
      SumBelow(init, bound);
      var n := |init| as real;
      assert SumOfRatings(ratings).value == SumOfRatings(init).value + last;
      assert n * bound + bound == (n + 1.0) * bound;
    }
  }

  /** Values all above `bound` sum to more than `bound` times their count. */
  lemma {:induction false} SumAbove(ratings: seq<Rating>, bound: real)
    requires ratings != [] && AllNumbers(ratings)
    requires forall i :: 0 <= i < |ratings| ==> ratings[i].rating.value > bound
    ensures SumOfRatings(ratings).Num? && SumOfRatings(ratings).value > |ratings| as real * bound
    decreases |ratings|
  {
    var init := ratings[..|ratings| - 1];
    var last := ratings[|ratings| - 1].rating.value;
    if init == [] {
      assert SumOfRatings(ratings) == Num(last);
    } else {
      SumAbove(init, bound);
      var n := |init| as real;
      assert SumOfRatings(ratings).value == SumOfRatings(init).value + last;
      assert n * bound + bound == (n + 1.0) * bound;
    }
  }

  /** The mean lies between the smallest and the largest value. */
  lemma MeanBetweenExtremes(ratings: seq<Rating>)
    requires ratings != [] && AllNumbers(ratings)
    ensures var mean := DivideByCount(SumOfRatings(ratings), |ratings|);
            && mean.Num?
            && (exists i :: 0 <= i < |ratings| && ratings[i].rating.value <= mean.value)
            && (exists i :: 0 <= i < |ratings| && mean.value <= ratings[i].rating.value)
  {
    SumIsNaNUnlessAllNumbers(ratings);
    var mean := SumOfRatings(ratings).value / |ratings| as real;
    SomeAtMostMean(ratings, mean);
    SomeAtLeastMean(ratings, mean);
  }

  lemma SomeAtMostMean(ratings: seq<Rating>, mean: real)
    requires ratings != [] && AllNumbers(ratings) && SumOfRatings(ratings).Num?
    requires mean == SumOfRatings(ratings).value / |ratings| as real
    ensures exists i :: 0 <= i < |ratings| && ratings[i].rating.value <= mean
  {
    assert |ratings| as real * mean == SumOfRatings(ratings).value;
    if forall i :: 0 <= i < |ratings| ==> ratings[i].rating.value > mean {
      SumAbove(ratings, mean);
      assert false;
    }
  }

  lemma SomeAtLeastMean(ratings: seq<Rating>, mean: real)
    requires ratings != [] && AllNumbers(ratings) && SumOfRatings(ratings).Num?
    requires mean == SumOfRatings(ratings).value / |ratings| as real
    ensures exists i :: 0 <= i < |ratings| && mean <= ratings[i].rating.value
  {
    assert |ratings| as real * mean == SumOfRatings(ratings).value;
    if forall i :: 0 <= i < |ratings| ==> ratings[i].rating.value < mean {
      SumBelow(ratings, mean);
      assert false;
    }
  }

  /** Ratings 3 and 5 for a movie average to 4,
    * whatever other movies' ratings are around them. */
  lemma AverageOfThreeAndFive(other: Rating)
    requires !RatesMovie(other, Num(7.0))
    ensures GetAverageRating([Rating(Num(1.0), Num(7.0), Num(3.0), Num(0.0)), other,
                              Rating(Num(2.0), Num(7.0), Num(5.0), Num(0.0))], Num(7.0)) == Num(4.0)
  {
    var rs := [Rating(Num(1.0), Num(7.0), Num(3.0), Num(0.0)), other,
               Rating(Num(2.0), Num(7.0), Num(5.0), Num(0.0))];
    var m := GetRatingsForMovie(rs, Num(7.0));
    assert GetRatingsForMovie(rs[2..], Num(7.0)) == [rs[2]];
    assert GetRatingsForMovie(rs[1..], Num(7.0)) == [rs[2]];
    assert m == [rs[0], rs[2]];
    assert SumOfRatings(m[..1]) == Num(3.0);
    assert SumOfRatings(m) == Num(8.0);
  }
}
