# Genre-based movie recommender, in Dafny

This project models the core of a small browser-based movie recommender built on the
MovieLens 100K files. `data.js` parses the `u.item` movie list and the `u.data` ratings.
It builds the genre vocabulary and answers lookups: a movie by id, the ratings of a
movie, and the average rating. `script.js` turns each movie's genres into a 0/1 vector
over the vocabulary and scores every other movie by cosine similarity against the
selected one. It keeps the six best and draws each movie's average rating as stars.

Modules, in dependency order:

- `JsBuiltins` (`js_builtins.dfy`) holds the JavaScript semantics the code relies on:
  - numbers with NaN and `===`, `Math.floor`, `% 1`;
  - the loop count of `for (i = 0; i < x; i++)`;
  - `trim`, `split` on one character, and `parseInt` without a radix;
  - the string order of the default `Array.prototype.sort`.
- `MovieData` (`movie_data.dfy`) holds the `Movie` and `Rating` records and the two line parsers.
- `GenreVocabulary` (`genre_vocabulary.dfy`) holds `extractAllGenres`.
- `Lookup` (`lookup.dfy`) holds `getMovieById`, `getRatingsForMovie` and `getAverageRating`.
- `Similarity` (`similarity.dfy`) holds `createGenreVector` and `calculateCosineSimilarity`.
- `Ranking` (`ranking.dfy`) holds `calculateRecommendations`.
- `RatingStars` (`rating_stars.dfy`) holds `generateRatingStars`.

The source changes state step by step in five places, and these are methods with loops:
- `parseMovieData` and its inner genre loop;
- `parseRatingData`;
- `extractAllGenres`;
- the dot-product loop of `calculateCosineSimilarity`;
- the two loops and the half-star branch of `generateRatingStars`.

Each of these methods except `ExtractAllGenres` is proved equal to a specification
function, and the lemmas are stated about that function. The result of
`ExtractAllGenres` is pinned down by its strict sortedness and its membership clause:
`GenreVocabulary.StrictlySortedUnique` shows that only one list meets both. The rest of the code is `map`/`filter`/`find`/`reduce`/`sort`
pipelines, which are functions. The code reads the globals `movies`, `ratings` and
`allGenres`; the model passes them in as parameters.

Cosine similarities involve square roots. A similarity is therefore kept exact as
`numerator / sqrt(radicand)`: the dot product over the product of the two squared
magnitudes. Similarities are compared by `Rank`, the signed square of the value.
`Similarity.RankOrdersValues` proves that comparing ranks compares the cosines
themselves. For non-negative similarities, `Similarity.RankCrossMultiplied` gives the
cross-multiplied test `d1² · n2 >= d2² · n1`.

`sort((a, b) => b.similarity - a.similarity)` relies on `Array.prototype.sort` being
stable. A stable sort under a consistent comparator has only one possible output. The
model computes that output with an insertion sort and states stability outright:
movies of equal similarity keep their catalogue order.

The code keeps at most 6 recommendations (`slice(0, 6)`) and never raises an error.

## Model

| member | source | states |
|---|---|---|
| JsBuiltins.RemainderOfOne | script.js:191 | `x % 1` is NaN exactly for NaN. For `x >= 0` it lies in [0, 1) and `x` minus it is `Math.floor(x)`. For negative `x` it is not positive: the remainder takes the sign of the dividend. |
| JsBuiltins.LoopCount | script.js:197 | The body of `for (let i = 0; i < x; i++)` runs for exactly the counters below the returned count. The count is 0 for NaN and for `x <= 0`. |
| JsBuiltins.TrimStart | data.js:35 | `trimStart` leaves a suffix of the line that does not start with white space. Everything it removed is white space. |
| JsBuiltins.TrimEnd | data.js:35 | `trimEnd` leaves a prefix that does not end with white space. Everything it removed is white space. |
| JsBuiltins.Trim | data.js:35 | `trim` is `trimEnd` after `trimStart`. TrimEmptyIffAllWhiteSpace states when it leaves nothing. |
| JsBuiltins.TrimEmptyIffAllWhiteSpace | data.js:35 | `line.trim() === ''` holds exactly when every character of the line is white space or a line terminator. |
| JsBuiltins.Split | data.js:32 | `split` on one character yields at least one piece, and no piece contains the separator. |
| JsBuiltins.SplitCount | data.js:32 | `split` on one character yields exactly one piece more than there are separators. |
| JsBuiltins.JoinSplit | data.js:32 | Splitting loses nothing: joining the pieces with the separator restores the string. |
| JsBuiltins.SplitJoin | data.js:37 | Splitting a join of separator-free pieces gives back exactly those pieces. |
| JsBuiltins.ParseInt | data.js:40 | `parseInt` without a radix: skip leading white space, read one optional sign, then a `0x` hexadecimal or a decimal run of digits; NaN when there are none. DigitPrefix and ParseIntDecimal state what it reads and that it inverts decimal notation. |
| JsBuiltins.DigitPrefix | data.js:40 | `parseInt` reads the longest prefix of digits of the radix, and the character after it is not such a digit. |
| JsBuiltins.ParseIntDecimal | data.js:40 | `parseInt` of any integer written in decimal, signed or not, gives back that integer. |
| JsBuiltins.StrLess | data.js:109 | The comparison of the default sort: lexicographic by character, a proper prefix first. StrLessIrreflexive, StrLessTransitive and StrLessTotal make it a strict total order. |
| JsBuiltins.StrLessIrreflexive | data.js:109 | No string sorts before itself. |
| JsBuiltins.StrLessTransitive | data.js:109 | The string order of the default sort is transitive. |
| JsBuiltins.StrLessTotal | data.js:109 | Of two different strings, one sorts before the other. |
| MovieData.RecordLines | data.js:34-38 | The kept lines are the lines that are not blank after trimming and have at least the minimum number of fields. There are no more of them than there are lines. |
| MovieData.GenreNamesTable | data.js:49-55 | The genre table holds 19 names, "Unknown" first, and no name twice. |
| MovieData.ReadGenres | data.js:45-61 | The genre loop collects, column by column, the genre of each flag column from 5 up to 23 that holds "1", skipping "Unknown". |
| MovieData.ReadMovieLine | data.js:35-63 | A line that is not blank after trimming and has at least five pipe-separated fields yields exactly the movie it describes. Any other line yields nothing. |
| MovieData.MovieOfParts | data.js:40-63 | The movie a line with enough fields yields: `parseInt` of field 0, field 1 as title, the genres of the flag columns. MovieGenres and MovieOfFields state its genres and fields. |
| MovieData.MoviesFrom | data.js:30-66 | The movies of the kept lines, in line order. ParseMovieData is proved to compute it, and MoviesFromKeptLines states its length and entries. |
| MovieData.ParseMovieData | data.js:30-67 | The line loop produces the movies of the kept lines, one per line, in line order. |
| MovieData.MoviesFromKeptLines | data.js:34-63 | There is exactly one movie per kept line, so never more movies than lines. Movie i is the movie that kept line i describes. |
| MovieData.GenreIndexOfName | data.js:48-55 | Each genre name sits at exactly one flag position. |
| MovieData.GenresBeforeOrdered | data.js:45-59 | The flag columns contribute only named genres other than "Unknown", in strictly increasing column order. |
| MovieData.GenresBeforeFlags | data.js:45-46 | Genre k is read exactly when column 5 + k exists and holds the string "1". |
| MovieData.MovieGenres | data.js:45-59 | A parsed movie's genres are named genres, never "Unknown". Genre k is present iff column 5 + k holds "1", and a column past the end of the line counts as unset. Genres come in column order, without duplicates. |
| MovieData.MovieOfFields | data.js:37-63 | A line of at least five fields free of the separator, whose first field is a decimal id is kept. It parses to the movie with that id, the second field as title, and the genres of its flag columns. |
| MovieData.ToyStoryGenres | data.js:123 | The flags of the first sample movie give Animation, Children's and Comedy. |
| MovieData.FirstSampleMovie | data.js:123 | The first sample line parses to movie 1, "Toy Story (1995)", with genres Animation, Children's and Comedy, whatever its date and URL fields hold. |
| MovieData.RatingOfParts | data.js:84-89 | The rating a line with enough fields yields: `parseInt` of fields 0 to 3 as user, movie, rating and timestamp. RatingOfFields and FirstSampleRating state what it reads. |
| MovieData.RatingsFrom | data.js:74-92 | The ratings of the kept lines, in line order. ParseRatingData is proved to compute it, and RatingsFromKeptLines states its length and entries. |
| MovieData.ParseRatingData | data.js:74-93 | The line loop produces one rating per kept line, in line order. |
| MovieData.ReadRatingLine | data.js:79-89 | A line that is not blank after trimming and has at least four tab-separated fields yields exactly the rating it describes. Any other line yields nothing. |
| MovieData.RatingsFromKeptLines | data.js:78-89 | There is exactly one rating per kept line, so never more ratings than lines. Rating i is the record that kept line i describes. |
| MovieData.RatingOfFields | data.js:81-89 | A tab-separated line whose first four fields are decimal numbers is kept. Its rating takes them as user, movie, rating and timestamp, in that order. |
| MovieData.FirstSampleRating | data.js:140 | The first sample rating line parses to user 196, movie 242, rating 3 and timestamp 881250949. |
| GenreVocabulary.SortStrings | data.js:109 | Sorting distinct genre names gives a strictly increasing list with the same elements. |
| GenreVocabulary.ExtractAllGenres | data.js:100-110 | The vocabulary is strictly sorted, hence free of duplicates. A genre is in it exactly when some movie has that genre. |
| GenreVocabulary.StrictlySortedUnique | data.js:100-110 | Two strictly sorted lists with the same elements are equal. The vocabulary therefore depends only on which genres occur: building it twice gives the same list. |
| Lookup.GetMovieById | data.js:205-207 | The result is `null` (None) exactly when no movie's id is `===` the id. Otherwise it is the first movie whose id is. |
| Lookup.GetRatingsForMovie | data.js:214-216 | The kept ratings are exactly the ratings whose movie id is `===` the id. |
| Lookup.GetRatingsForMovieAppend | data.js:215 | Filtering distributes over concatenation, so the kept ratings stay in their original order. |
| Lookup.GetRatingsForMovieCounts | data.js:215 | Every matching rating is kept as many times as it occurs. |
| Lookup.SumOfRatings | data.js:227 | The `reduce` sum of the ratings, starting from 0. SumIsNaNUnlessAllNumbers states when it is a number. |
| Lookup.SumIsNaNUnlessAllNumbers | data.js:227 | The sum of the ratings is a number exactly when every rating is. |
| Lookup.MeanBetweenExtremes | data.js:227-228 | The mean of the ratings lies between the smallest and the largest of them. |
| Lookup.MeanRating | data.js:226-228 | 0 for no ratings, otherwise the sum over the count. MeanRatingBounds states its three cases. |
| Lookup.MeanRatingBounds | data.js:226-228 | 0 for no ratings, NaN when one rating is NaN, otherwise a number between the smallest and the largest rating. |
| Lookup.GetAverageRating | data.js:223-229 | The average is 0 when the movie has no ratings, and NaN when one of them is NaN. Otherwise it is a number between the smallest and the largest rating of the movie. |
| Lookup.AverageOfThreeAndFive | data.js:223-229 | Ratings 3 and 5 for a movie average to 4, whatever other movies' ratings sit between them. |
| Similarity.GenreVector | script.js:114-116 | The genre vector has one entry per vocabulary genre, each 0 or 1. |
| Similarity.GenreVectorEntries | script.js:115 | Entry i is 1 exactly when vocabulary genre i is one of the movie's genres, and 0 exactly when it is not. |
| Similarity.GenreVectorIgnoresOtherGenres | script.js:115 | Only vocabulary genres matter. Genres missing from the vocabulary, and the order or repetition of the movie's genres, leave the vector unchanged. |
| Similarity.CalculateCosineSimilarity | script.js:119-136 | The loop accumulates the dot product. The result is 0 when a vector has no magnitude, and the dot product over the product of the magnitudes otherwise. |
| Similarity.SumSquaresIsSelfDot | script.js:127-128 | A vector's squared magnitude is its dot product with itself. |
| Similarity.DotSymmetric | script.js:121-124 | The dot product is symmetric in its arguments. |
| Similarity.NoMagnitudeIffZero | script.js:127-131 | A magnitude is 0 exactly when every entry of the vector is 0. |
| Similarity.BinaryDotBounds | script.js:121-128 | For 0/1 vectors the dot product lies between 0 and either squared magnitude. |
| Similarity.DotOfGenreVectors | script.js:121-124 | The dot product of two genre vectors counts the vocabulary genres both movies have. |
| Similarity.CountSharedIsSetSize | script.js:121-124 | Over a duplicate-free vocabulary, that count is the number of distinct vocabulary genres the movies share. |
| Similarity.RankIsSignedSquare | script.js:135 | The rank of a similarity is the signed square of its value. |
| Similarity.RankOrdersValues | script.js:109 | Comparing ranks compares the similarities' values, in both directions. |
| Similarity.RankCrossMultiplied | script.js:135 | Two non-negative similarities compare as their cross-multiplied squares: s >= t iff d1² · n2 >= d2² · n1. |
| Similarity.CosineOf | script.js:127-135 | The exact cosine: no similarity when either squared magnitude is 0, otherwise the dot product over the root of the product of the squared magnitudes. CosineValue, CosineOfZeroVector, CosineSymmetric, BinaryCosineInUnitInterval and CosineWithItself state its properties. |
| Similarity.CosineValue | script.js:127-135 | For two vectors that are not all zero, the similarity's value is `dotProduct / (magnitudeA * magnitudeB)`, with the magnitudes the square roots of the sums of squares. |
| Similarity.CosineOfZeroVector | script.js:131-133 | The similarity is 0 whenever either vector is all zero, including when both are. |
| Similarity.CosineSymmetric | script.js:119-136 | The similarity is symmetric in its arguments. |
| Similarity.BinaryCosineInUnitInterval | script.js:119-136 | For 0/1 vectors the similarity lies in [0, 1]. |
| Similarity.CosineWithItself | script.js:119-136 | A vector that is not all zero has similarity 1 with itself, because its dot product with itself is its squared magnitude. |
| Ranking.ScoreMovie | script.js:96-103 | The `map` callback: similarity 1 for a movie whose id is `===` the selected id, the cosine against the selected movie's genre vector otherwise. CandidatesFollowCatalogue states what the kept entries carry. |
| Ranking.ScoreAll | script.js:95-104 | Scoring keeps one entry per catalogue movie. |
| Ranking.OtherMovies | script.js:108 | The other movies are exactly the catalogue movies whose id is not `===` the selected movie's id. |
| Ranking.OtherScored | script.js:108 | `filter` on the scored movies: keeps those whose id is not `===` the selected id, in order. ScoredOthersFollowCatalogue states that they are the other movies with their scores. |
| Ranking.Candidates | script.js:90-108 | The scored movies that compete: scoring, then filtering. CandidatesFollowCatalogue states entry by entry what they are. |
| Ranking.CandidatesFollowCatalogue | script.js:95-108 | After scoring and filtering, entry i is other movie i in catalogue order. It carries the cosine of its genre vector against the selected movie's, never the similarity 1 given to the selected movie itself. |
| Ranking.InsertByRank | script.js:109 | Inserting into a list sorted by descending similarity keeps it sorted and adds exactly the new entry. |
| Ranking.SortBySimilarity | script.js:109 | The sorted list has the same length and is in descending order of similarity. |
| Ranking.SortPermutes | script.js:109 | Sorting only reorders: the same entries, each as often. |
| Ranking.SortKeepsTies | script.js:109 | The sort is stable: the entries of any one similarity keep their relative order. |
| Ranking.CalculateRecommendations | script.js:90-111 | The first six of the sorted candidates. RecommendationsCount, RecommendationsDescending, RecommendationsAreOtherMovies, RecommendationsAreTopRanked and RecommendationsBreakTiesByCatalogueOrder state its length, order, entries, selection and tie order. |
| Ranking.RecommendationsCount | script.js:107-110 | There are min(6, number of catalogue movies whose id is not `===` the selected id) recommendations. |
| Ranking.RecommendationsDescending | script.js:109-110 | The recommendations' similarities never increase. |
| Ranking.RecommendationsAreOtherMovies | script.js:95-108 | Each recommendation is a catalogue movie whose id is not `===` the selected id. It carries the cosine of its genre vector against the selected movie's. |
| Ranking.RecommendationsAreTopRanked | script.js:109-110 | The recommendations are drawn from the candidates, and every candidate left out ranks no higher than any recommendation. |
| Ranking.RecommendationsBreakTiesByCatalogueOrder | script.js:109-110 | Among movies of equal similarity, the recommended ones are the first in catalogue order. |
| Ranking.NoGenresNoSimilarity | script.js:131-133 | A selected movie with no vocabulary genre has similarity 0 with every recommendation. |
| Ranking.ThreeMovieExample | script.js:90-111 | With A {Action, Comedy}, B {Action} and C {Drama}, the recommendations for A are B with 1/sqrt(2), then C with 0. |
| RatingStars.HasHalfStar | script.js:191 | `rating % 1 >= 0.5`. StarCountsInRange states that it holds exactly when the fractional part is at least 0.5. |
| RatingStars.EmptyStars | script.js:192 | `5 - fullStars - (halfStar ? 1 : 0)`. StarsShape states its loop count for ratings in [0, 5]. |
| RatingStars.StarsFor | script.js:189-209 | The stars the two loops and the half-star branch draw. GenerateRatingStars is proved to compute it; StarsForRatingInRange and StarCountsInRange describe it. |
| RatingStars.GenerateRatingStars | script.js:189-212 | The two loops and the branch between them draw as many full stars as `i < Math.floor(rating)` allows, then a half star when `rating % 1 >= 0.5`, then as many empty stars as `i < emptyStars` allows. |
| RatingStars.StarsShape | script.js:190-192 | For a rating in [0, 5] the full-star loop runs floor(rating) times and the empty-star loop runs the rest of the five. |
| RatingStars.StarsForRatingInRange | script.js:189-209 | For a rating in [0, 5] there are five stars. Star i is full iff the rating reaches i + 1, half iff it reaches i + 0.5 but not i + 1, and empty iff it is below i + 0.5. |
| RatingStars.StarCountsInRange | script.js:190-209 | For a rating in [0, 5] there are floor(rating) full stars. A half star appears iff the fractional part is at least 0.5. Full, half and empty stars add up to 5. |
| RatingStars.NoStarsForNaN | script.js:190-209 | A NaN rating draws no star: every comparison with NaN is false. |
| RatingStars.FiveEmptyStarsForZero | script.js:189-209 | The 0 shown for a movie without ratings draws five empty stars. |

## Left out

- The user interface is not part of this model: `handleMovieSelection`, `getRecommendations` and its `setTimeout`, `displayRecommendations`, `showError`, `populateMovieDropdown` and `addDynamicStyles` (script.js:9-87, 139-186, 215-316).
- The HTML markup of each star and the `toFixed` formatting of ratings and percentages are presentation. The model keeps the sequence of star kinds.
- `loadMovieData` (data.js:117-174) is asynchronous, assigns globals and logs to the console. Its first sample lines appear only as the two example lemmas.
- The globals `movies`, `ratings` and `allGenres`, which both scripts declare, are parameters of the model.
- Numbers are exact reals, not IEEE-754 doubles. Rounding in `+`, `/` and `Math.sqrt` is not modelled, and neither is `parseInt`'s rounding of integers above 2^53.
- Ranking.SortBySimilarity: ties are exact ties between the mathematical cosines. With doubles, two equal cosines computed from different vectors could round apart, and the engine would then order them by the rounded values.
- JsBuiltins.StrLess compares strings by code point. The engine compares UTF-16 code units, and the two orders differ only for characters outside the Basic Multilingual Plane.
- Similarity.CalculateCosineSimilarity: requires vectors of equal length. Every caller passes two vectors over the same vocabulary. The model covers neither unequal-length case. With a shorter second vector the source reads `undefined` and the dot product becomes NaN, so it returns 0 when either magnitude is 0 and NaN otherwise. With a longer second vector the dot product ignores the extra entries, but `magnitudeB` counts them.
- RatingStars.StarsForRatingInRange: stated for ratings in [0, 5], the range of MovieLens averages. For other ratings the model still computes what the two loops and the half-star branch draw, but no lemma describes the result.
- The `genreName &&` test at data.js:57 always passes, because the index is always within the 19 names. The model keeps only the "Unknown" test.
- `getMovieById`'s `|| null` cannot turn a found movie into `null`, because a movie object is always truthy. It is modelled as None for "not found".
