/** `calculateRecommendations` of script.js: every movie of the catalogue is
  * scored against the selected one, the selected movie is dropped, the rest
  * are sorted by similarity, highest first, and the first six are kept. The
  * source reads the globals `movies` and `allGenres`; here they are parameters. */
module Ranking {
  import opened JsBuiltins
  import opened MovieData
  import opened Similarity

  /** A movie with its similarity to the selected movie (`{ ...movie, similarity }`). */
  datatype ScoredMovie = ScoredMovie(movie: Movie, similarity: Similarity)

  /** The number of recommendations kept (`slice(0, 6)`). */
  const RecommendationCount: nat := 6

  function RankOf(e: ScoredMovie): real {
    Rank(e.similarity)
  }

  /** Highest similarity first. */
  predicate Descending(s: seq<ScoredMovie>) {
    forall i, j :: 0 <= i < j < |s| ==> RankOf(s[i]) >= RankOf(s[j])
  }

  /** The entries whose similarity has rank `k`, in their order. */
  function WithRank(s: seq<ScoredMovie>, k: real): seq<ScoredMovie> {
    if s == [] then []
    else (if RankOf(s[0]) == k then [s[0]] else []) + WithRank(s[1..], k)
  }

  lemma WithRankCons(x: ScoredMovie, s: seq<ScoredMovie>, k: real)
    ensures WithRank([x] + s, k) == (if RankOf(x) == k then [x] else []) + WithRank(s, k)
  {
    assert ([x] + s)[1..] == s;
  }

  /** Filtering by rank distributes over concatenation. */
  lemma {:induction false} WithRankAppend(a: seq<ScoredMovie>, b: seq<ScoredMovie>, k: real)
    ensures WithRank(a + b, k) == WithRank(a, k) + WithRank(b, k)
  {
    if a == [] {
      assert a + b == b;
    } else {
      var x, tail := a[0], a[1..];
      var head := if RankOf(x) == k then [x] else [];
      calc {
        WithRank(a + b, k);
        { assert a + b == [x] + (tail + b); WithRankCons(x, tail + b, k); }
        head + WithRank(tail + b, k);
        { WithRankAppend(tail, b, k); }
        head + (WithRank(tail, k) + WithRank(b, k));
        { assert a == [x] + tail; WithRankCons(x, tail, k); }
        WithRank(a, k) + WithRank(b, k);
      }
    }
  }

  // ---------------------------------------------------------------------
  // Scoring and filtering

  /** The callback of `movies.map`: similarity 1 for the selected movie itself
    * (by `===` on the id), the cosine of the genre vectors otherwise. */
  function ScoreMovie(selected: Movie, selectedVector: Vector, allGenres: seq<string>, movie: Movie): ScoredMovie
    requires |selectedVector| == |allGenres|
  {
    if StrictEquals(movie.id, selected.id) then ScoredMovie(movie, FullSimilarity)
    else ScoredMovie(movie, CosineOf(selectedVector, GenreVector(allGenres, movie.genres)))
  }

  /** `movies.map(...)`. */
  function ScoreAll(selected: Movie, selectedVector: Vector, allGenres: seq<string>, movies: seq<Movie>): (scored: seq<ScoredMovie>)
    requires |selectedVector| == |allGenres|
    ensures |scored| == |movies|
  {
    if movies == [] then []
    else [ScoreMovie(selected, selectedVector, allGenres, movies[0])] + ScoreAll(selected, selectedVector, allGenres, movies[1..])
  }

  /** `filter(movie => movie.id !== selectedMovie.id)` on scored movies. */
  function OtherScored(scored: seq<ScoredMovie>, id: Number): seq<ScoredMovie> {
    if scored == [] then []
    else (if !StrictEquals(scored[0].movie.id, id) then [scored[0]] else []) + OtherScored(scored[1..], id)
  }

  /** The movies of the catalogue whose id is not `=== id`, in catalogue order. */
  function OtherMovies(movies: seq<Movie>, id: Number): (others: seq<Movie>)
    ensures |others| <= |movies|
    ensures forall m :: m in others <==> m in movies && !StrictEquals(m.id, id)
  {
    if movies == [] then []
    else
      assert movies == [movies[0]] + movies[1..];
      (if !StrictEquals(movies[0].id, id) then [movies[0]] else []) + OtherMovies(movies[1..], id)
  }

  /** The scored movies that compete for a recommendation. */
  function Candidates(selected: Movie, movies: seq<Movie>, allGenres: seq<string>): seq<ScoredMovie> {
    var selectedVector := GenreVector(allGenres, selected.genres);
    OtherScored(ScoreAll(selected, selectedVector, allGenres, movies), selected.id)
  }

  /** The candidates are the other movies, in catalogue order, each with the
    * cosine of its genre vector against the selected movie's. */
  lemma {:induction false} ScoredOthersFollowCatalogue(selected: Movie, selectedVector: Vector, allGenres: seq<string>, movies: seq<Movie>)
    requires |selectedVector| == |allGenres|
    ensures var c := OtherScored(ScoreAll(selected, selectedVector, allGenres, movies), selected.id);
            var o := OtherMovies(movies, selected.id);
            |c| == |o|
            && forall i :: 0 <= i < |c| ==>
                 c[i].movie == o[i] && c[i].similarity == CosineOf(selectedVector, GenreVector(allGenres, o[i].genres))
  {
    if movies != [] {
      ScoredOthersFollowCatalogue(selected, selectedVector, allGenres, movies[1..]);
      var scored := ScoreAll(selected, selectedVector, allGenres, movies);
      assert scored[1..] == ScoreAll(selected, selectedVector, allGenres, movies[1..]);
    }
  }

  lemma CandidatesFollowCatalogue(selected: Movie, movies: seq<Movie>, allGenres: seq<string>)
    ensures var c := Candidates(selected, movies, allGenres);
            var o := OtherMovies(movies, selected.id);
            |c| == |o|
            && forall i :: 0 <= i < |c| ==>
                 c[i].movie == o[i]
                 && c[i].similarity == CosineOf(GenreVector(allGenres, selected.genres), GenreVector(allGenres, o[i].genres))
  {
    ScoredOthersFollowCatalogue(selected, GenreVector(allGenres, selected.genres), allGenres, movies);
  }

  // ---------------------------------------------------------------------
  // Sorting

  /** Places `x` before the first entry that does not rank above it. */
  function InsertByRank(x: ScoredMovie, sorted: seq<ScoredMovie>): (r: seq<ScoredMovie>)
    requires Descending(sorted)
    ensures |r| == |sorted| + 1
    ensures forall y :: y in r <==> y == x || y in sorted
    ensures Descending(r)
  {
    if sorted == [] || RankOf(sorted[0]) <= RankOf(x) then
      [x] + sorted
    else
      var rest := InsertByRank(x, sorted[1..]);
      assert forall j :: 0 <= j < |rest| ==> RankOf(sorted[0]) >= RankOf(rest[j]) by {
        forall j | 0 <= j < |rest| ensures RankOf(sorted[0]) >= RankOf(rest[j]) {
          assert rest[j] in rest;
        }
      }
      assert sorted == [sorted[0]] + sorted[1..];
      [sorted[0]] + rest
  }

  /** `sort((a, b) => b.similarity - a.similarity)`: highest similarity first,
    * equal similarities in their original order (the sort is stable). */
  function SortBySimilarity(s: seq<ScoredMovie>): (r: seq<ScoredMovie>)
    ensures |r| == |s|
    ensures Descending(r)
  {
    if s == [] then [] else InsertByRank(s[0], SortBySimilarity(s[1..]))
  }

  lemma {:induction false} InsertByRankPermutes(x: ScoredMovie, sorted: seq<ScoredMovie>)
    requires Descending(sorted)
    ensures multiset(InsertByRank(x, sorted)) == multiset(sorted) + multiset{x}
  {
    if sorted != [] && RankOf(sorted[0]) > RankOf(x) {
      InsertByRankPermutes(x, sorted[1..]);
      assert sorted == [sorted[0]] + sorted[1..];
    }
  }

  /** Sorting only reorders. */
  lemma {:induction false} SortPermutes(s: seq<ScoredMovie>)
    ensures multiset(SortBySimilarity(s)) == multiset(s)
  {
    if s != [] {
      var sortedTail := SortBySimilarity(s[1..]);
      calc {
        multiset(SortBySimilarity(s));
        multiset(InsertByRank(s[0], sortedTail));
        { InsertByRankPermutes(s[0], sortedTail); }
        multiset(sortedTail) + multiset{s[0]};
        { SortPermutes(s[1..]); }
        multiset(s[1..]) + multiset{s[0]};
        { assert s == [s[0]] + s[1..]; }
        multiset(s);
      }
    }
  }

  /** Inserting keeps `x` ahead of the entries of equal rank already placed. */
  lemma {:induction false} InsertByRankTies(x: ScoredMovie, sorted: seq<ScoredMovie>, k: real)
    requires Descending(sorted)
    ensures WithRank(InsertByRank(x, sorted), k) == (if RankOf(x) == k then [x] else []) + WithRank(sorted, k)
  {
    if sorted == [] || RankOf(sorted[0]) <= RankOf(x) {
      WithRankCons(x, sorted, k);
    } else {
      var first, tail := sorted[0], sorted[1..];
      var rest := InsertByRank(x, tail);
      var headFirst := if RankOf(first) == k then [first] else [];
      var headX := if RankOf(x) == k then [x] else [];
      assert headFirst == [] || headX == [];
      calc {
        WithRank(InsertByRank(x, sorted), k);
        { assert InsertByRank(x, sorted) == [first] + rest; WithRankCons(first, rest, k); }
        headFirst + WithRank(rest, k);
        { InsertByRankTies(x, tail, k); }
        headFirst + (headX + WithRank(tail, k));
        headX + (headFirst + WithRank(tail, k));
        { assert sorted == [first] + tail; WithRankCons(first, tail, k); }
        headX + WithRank(sorted, k);
      }
    }
  }

  /** The sort is stable: the entries of any one rank keep their order. */
  lemma {:induction false} SortKeepsTies(s: seq<ScoredMovie>, k: real)
    ensures WithRank(SortBySimilarity(s), k) == WithRank(s, k)
  {
    if s != [] {
      SortKeepsTies(s[1..], k);
      InsertByRankTies(s[0], SortBySimilarity(s[1..]), k);
    }
  }

  // ---------------------------------------------------------------------
  // Recommendations

  /** `calculateRecommendations`: the six best-ranked other movies. */
  function CalculateRecommendations(selected: Movie, movies: seq<Movie>, allGenres: seq<string>): seq<ScoredMovie> {
    var ranked := SortBySimilarity(Candidates(selected, movies, allGenres));
    ranked[..if |ranked| < RecommendationCount then |ranked| else RecommendationCount]
  }

  /** At most six recommendations, fewer only when there are fewer other movies. */
  lemma RecommendationsCount(selected: Movie, movies: seq<Movie>, allGenres: seq<string>)
    ensures var others := |OtherMovies(movies, selected.id)|;
            |CalculateRecommendations(selected, movies, allGenres)|
            == if others < RecommendationCount then others else RecommendationCount
  {
    CandidatesFollowCatalogue(selected, movies, allGenres);
  }

  /** The recommendations are listed highest similarity first. */
  lemma RecommendationsDescending(selected: Movie, movies: seq<Movie>, allGenres: seq<string>)
    ensures Descending(CalculateRecommendations(selected, movies, allGenres))
  {
    var ranked := SortBySimilarity(Candidates(selected, movies, allGenres));
    var n := |CalculateRecommendations(selected, movies, allGenres)|;
    assert forall i :: 0 <= i < n ==> ranked[..n][i] == ranked[i];
  }

  /** Each recommendation is a catalogue movie other than the selected one,
    * carrying the cosine of its genre vector against the selected movie's. */
  lemma RecommendationsAreOtherMovies(selected: Movie, movies: seq<Movie>, allGenres: seq<string>)
    ensures forall e :: e in CalculateRecommendations(selected, movies, allGenres) ==>
              e.movie in movies
              && !StrictEquals(e.movie.id, selected.id)
              && e.similarity == CosineOf(GenreVector(allGenres, selected.genres), GenreVector(allGenres, e.movie.genres))
  {
    var c := Candidates(selected, movies, allGenres);
    var ranked := SortBySimilarity(c);
    var r := CalculateRecommendations(selected, movies, allGenres);
    CandidatesFollowCatalogue(selected, movies, allGenres);
    SortPermutes(c);
    forall e | e in r
      ensures e.movie in movies && !StrictEquals(e.movie.id, selected.id)
      ensures e.similarity == CosineOf(GenreVector(allGenres, selected.genres), GenreVector(allGenres, e.movie.genres))
    {
      assert e in ranked;
      assert e in multiset(c);
      var i :| 0 <= i < |c| && c[i] == e;
      assert OtherMovies(movies, selected.id)[i] in OtherMovies(movies, selected.id);
    }
  }

  /** The recommendations are the best-ranked candidates: they are taken from
    * the candidates, and every candidate left out ranks no higher than any
    * recommendation. */
  lemma RecommendationsAreTopRanked(selected: Movie, movies: seq<Movie>, allGenres: seq<string>)
    ensures var c := Candidates(selected, movies, allGenres);
            var r := CalculateRecommendations(selected, movies, allGenres);
            multiset(r) <= multiset(c)
            && forall e, f :: e in multiset(c) - multiset(r) && f in r ==> RankOf(e) <= RankOf(f)
  {
    var c := Candidates(selected, movies, allGenres);
    var ranked := SortBySimilarity(c);
    var r := CalculateRecommendations(selected, movies, allGenres);
    SortPermutes(c);
    DescendingPrefixIsTop(ranked, |r|);
    assert r == ranked[..|r|];
  }

  /** In a descending sequence a prefix is the top of it: every entry after
    * the prefix ranks no higher than any entry of the prefix. */
  lemma DescendingPrefixIsTop(ranked: seq<ScoredMovie>, n: nat)
    requires Descending(ranked) && n <= |ranked|
    ensures multiset(ranked[..n]) <= multiset(ranked)
    ensures forall e, f :: e in multiset(ranked) - multiset(ranked[..n]) && f in ranked[..n] ==> RankOf(e) <= RankOf(f)
  {
    var top, rest := ranked[..n], ranked[n..];
    assert ranked == top + rest;
    assert multiset(ranked) == multiset(top) + multiset(rest);
    forall e, f | e in multiset(ranked) - multiset(top) && f in top
      ensures RankOf(e) <= RankOf(f)
    {
      assert e in multiset(rest);
      RestRanksBelowTop(ranked, n, e, f);
    }
  }

  lemma RestRanksBelowTop(ranked: seq<ScoredMovie>, n: nat, e: ScoredMovie, f: ScoredMovie)
    requires Descending(ranked) && n <= |ranked|
    requires e in ranked[n..] && f in ranked[..n]
    ensures RankOf(e) <= RankOf(f)
  {
    var i :| 0 <= i < |ranked[n..]| && ranked[n..][i] == e;
    var j :| 0 <= j < |ranked[..n]| && ranked[..n][j] == f;
    assert ranked[n + i] == e && ranked[j] == f;
  }

  /** Movies of equal similarity are recommended in catalogue order: the
    * recommendations of any one rank are a prefix of the candidates of that rank. */
  lemma RecommendationsBreakTiesByCatalogueOrder(selected: Movie, movies: seq<Movie>, allGenres: seq<string>, k: real)
    ensures WithRank(CalculateRecommendations(selected, movies, allGenres), k)
            <= WithRank(Candidates(selected, movies, allGenres), k)
  {
    var c := Candidates(selected, movies, allGenres);
    var ranked := SortBySimilarity(c);
    var r := CalculateRecommendations(selected, movies, allGenres);
    assert ranked == r + ranked[|r|..];
    WithRankAppend(r, ranked[|r|..], k);
    SortKeepsTies(c, k);
  }

  /** A selected movie with no genre of the vocabulary has similarity 0 with
    * every recommended movie. */
  lemma NoGenresNoSimilarity(selected: Movie, movies: seq<Movie>, allGenres: seq<string>)
    requires forall g :: g in selected.genres ==> g !in allGenres
    ensures forall e :: e in CalculateRecommendations(selected, movies, allGenres) ==>
              e.similarity.numerator == 0 && RankOf(e) == 0.0
  {
    var selectedVector := GenreVector(allGenres, selected.genres);
    assert IsZero(selectedVector) by {
      forall i | 0 <= i < |allGenres| ensures selectedVector[i] == 0 {
        assert allGenres[i] in allGenres;
      }
    }
    RecommendationsAreOtherMovies(selected, movies, allGenres);
    forall e | e in CalculateRecommendations(selected, movies, allGenres)
      ensures e.similarity.numerator == 0 && RankOf(e) == 0.0
    {
      CosineOfZeroVector(selectedVector, GenreVector(allGenres, e.movie.genres));
    }
  }

  lemma ExampleCosines()
    ensures var vocabulary := ["Action", "Comedy", "Drama"];
            var va := GenreVector(vocabulary, ["Action", "Comedy"]);
            CosineOf(va, GenreVector(vocabulary, ["Action"])) == SqrtRatio(1, 2)
            && CosineOf(va, GenreVector(vocabulary, ["Drama"])) == SqrtRatio(0, 2)
  {
    var vocabulary := ["Action", "Comedy", "Drama"];
    var va := GenreVector(vocabulary, ["Action", "Comedy"]);
    var vb := GenreVector(vocabulary, ["Action"]);
    var vc := GenreVector(vocabulary, ["Drama"]);
    assert va == [1, 1, 0];
    assert vb == [1, 0, 0];
    assert vc == [0, 0, 1];
    assert va[..2] == [1, 1] && [1, 1][..1] == [1] && [1][..0] == [];
    assert vb[..2] == [1, 0] && [1, 0][..1] == [1];
    assert vc[..2] == [0, 0] && [0, 0][..1] == [0] && [0][..0] == [];
    assert SumSquares(va) == 2 && SumSquares(vb) == 1 && SumSquares(vc) == 1;
    assert Dot(va, vb) == 1 && Dot(va, vc) == 0;
  }

  lemma ExampleScores()
    ensures var a := Movie(Num(1.0), "A", ["Action", "Comedy"]);
            var b := Movie(Num(2.0), "B", ["Action"]);
            var c := Movie(Num(3.0), "C", ["Drama"]);
            var vocabulary := ["Action", "Comedy", "Drama"];
            ScoreAll(a, GenreVector(vocabulary, a.genres), vocabulary, [a, b, c])
            == [ScoredMovie(a, FullSimilarity), ScoredMovie(b, SqrtRatio(1, 2)), ScoredMovie(c, SqrtRatio(0, 2))]
  {
    var a := Movie(Num(1.0), "A", ["Action", "Comedy"]);
    var b := Movie(Num(2.0), "B", ["Action"]);
    var c := Movie(Num(3.0), "C", ["Drama"]);
    var vocabulary := ["Action", "Comedy", "Drama"];
    var va := GenreVector(vocabulary, a.genres);
    ExampleCosines();
    assert [a, b, c][1..] == [b, c] && [b, c][1..] == [c];
    assert ScoreAll(a, va, vocabulary, [c]) == [ScoredMovie(c, SqrtRatio(0, 2))];
  }

  /** In the worked example the candidates for A are B and C, in catalogue order. */
  lemma ExampleCandidates()
    ensures var a := Movie(Num(1.0), "A", ["Action", "Comedy"]);
            var b := Movie(Num(2.0), "B", ["Action"]);
            var c := Movie(Num(3.0), "C", ["Drama"]);
            Candidates(a, [a, b, c], ["Action", "Comedy", "Drama"])
            == [ScoredMovie(b, SqrtRatio(1, 2)), ScoredMovie(c, SqrtRatio(0, 2))]
  {
    var a := Movie(Num(1.0), "A", ["Action", "Comedy"]);
    var sa := ScoredMovie(a, FullSimilarity);
    var sb := ScoredMovie(Movie(Num(2.0), "B", ["Action"]), SqrtRatio(1, 2));
    var sc := ScoredMovie(Movie(Num(3.0), "C", ["Drama"]), SqrtRatio(0, 2));
    ExampleScores();
    assert [sa, sb, sc][1..] == [sb, sc] && [sb, sc][1..] == [sc] && [sc][1..] == [];
    assert OtherScored([sc], a.id) == [sc];
    assert OtherScored([sb, sc], a.id) == [sb, sc];
  }

  /** A worked example: with A {Action, Comedy}, B {Action} and C {Drama}, the
    * recommendations for A are B with similarity 1/sqrt(2), then C with 0. */
  lemma ThreeMovieExample()
    ensures var a := Movie(Num(1.0), "A", ["Action", "Comedy"]);
            var b := Movie(Num(2.0), "B", ["Action"]);
            var c := Movie(Num(3.0), "C", ["Drama"]);
            CalculateRecommendations(a, [a, b, c], ["Action", "Comedy", "Drama"])
            == [ScoredMovie(b, SqrtRatio(1, 2)), ScoredMovie(c, SqrtRatio(0, 2))]
  {
    var sb := ScoredMovie(Movie(Num(2.0), "B", ["Action"]), SqrtRatio(1, 2));
    var sc := ScoredMovie(Movie(Num(3.0), "C", ["Drama"]), SqrtRatio(0, 2));
    ExampleCandidates();
    assert RankOf(sb) == 0.5 && RankOf(sc) == 0.0;
    SortPair(sb, sc);
  }

  /** Two entries already in descending order stay as they are. */
  lemma SortPair(x: ScoredMovie, y: ScoredMovie)
    requires RankOf(y) <= RankOf(x)
    ensures SortBySimilarity([x, y]) == [x, y]
  {
    assert [x, y][1..] == [y] && [y][1..] == [];
    assert SortBySimilarity([y]) == [y];
  }
}
